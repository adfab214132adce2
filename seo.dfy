/** The page metadata component: the document title, description, image and
    Open Graph and Twitter tags, each falling back to a site-wide default. */
module Seo {
  import opened Common
  import opened Session

  /** The properties a page passes; each may be left out. */
  datatype SeoProps = SeoProps(
    title: Option<string>,
    description: Option<string>,
    image: Option<string>,
    pageType: Option<string>)

  /** The tags the component renders, other than the page URL ones. */
  datatype Meta = Meta(
    title: string,
    description: string,
    ogType: string,
    ogTitle: string,
    ogDescription: string,
    ogImage: string,
    ogSiteName: string,
    twitterCard: string,
    twitterTitle: string,
    twitterDescription: string,
    twitterImage: string)

  const DefaultSiteTitle := "Precission"
  const DefaultDescription := "Award-winning architectural portfolio and design studio specializing in modern, sustainable, and high-end residential projects."
  const DefaultImage := "https://images.unsplash.com/photo-1486325212027-8081e485255e"
  const StudioSuffix := " | Architectural Studio"
  const Separator := " | "

  /** `settings?.hero_title || 'Precission'`. */
  function SiteTitle(settings: Option<SiteSettings>): (r: string)
    ensures settings.Some? && settings.value.heroTitle != "" ==> r == settings.value.heroTitle
    ensures !(settings.Some? && settings.value.heroTitle != "") ==> r == DefaultSiteTitle
    ensures r != ""
  {
    if settings.Some? then OrElse(settings.value.heroTitle, DefaultSiteTitle) else DefaultSiteTitle
  }

  /** `settings?.hero_image_url || <fixed photo>`. */
  function SiteImage(settings: Option<SiteSettings>): (r: string)
    ensures settings.Some? && settings.value.heroImageUrl.Some? && settings.value.heroImageUrl.value != "" ==>
      r == settings.value.heroImageUrl.value
    ensures !(settings.Some? && settings.value.heroImageUrl.Some? && settings.value.heroImageUrl.value != "") ==>
      r == DefaultImage
  {
    if settings.Some? then NullableOr(settings.value.heroImageUrl, DefaultImage) else DefaultImage
  }

  /** `title ? `${title} | ${siteTitle}` : `${siteTitle} | Architectural Studio``. */
  function MetaTitle(title: Option<string>, siteTitle: string): string
  {
    if title.Some? && title.value != "" then title.value + Separator + siteTitle
    else siteTitle + StudioSuffix
  }

  function MetaFor(props: SeoProps, settings: Option<SiteSettings>): Meta
  {
    var siteTitle := SiteTitle(settings);
    var title := MetaTitle(props.title, siteTitle);
    var description := NullableOr(props.description, DefaultDescription);
    var image := NullableOr(props.image, SiteImage(settings));
    var pageType := if props.pageType.Some? then props.pageType.value else "website";
    Meta(title, description, pageType, title, description, image, siteTitle,
      "summary_large_image", title, description, image)
  }

  /** Every page title ends with the site title, or with the studio suffix
      after it: a page title comes first and then the site title, and
      without one the site title is followed by the suffix. */
  lemma MetaTitleShape(title: Option<string>, siteTitle: string)
    ensures title.Some? && title.value != "" ==>
      var t := MetaTitle(title, siteTitle);
      t[..|title.value|] == title.value && t[|t| - |siteTitle|..] == siteTitle
    ensures !(title.Some? && title.value != "") ==>
      var t := MetaTitle(title, siteTitle);
      t[..|siteTitle|] == siteTitle && t[|siteTitle|..] == StudioSuffix
  {
  }

  /** The Open Graph and Twitter tags repeat the standard ones, the site name
      tag is the site title, the card is always the large image one, and
      the page type defaults to 'website'. */
  lemma SocialTagsAgree(props: SeoProps, settings: Option<SiteSettings>)
    ensures var m := MetaFor(props, settings);
      && m.ogTitle == m.title && m.twitterTitle == m.title
      && m.ogDescription == m.description && m.twitterDescription == m.description
      && m.twitterImage == m.ogImage
      && m.ogSiteName == SiteTitle(settings)
      && m.twitterCard == "summary_large_image"
      && (props.pageType.None? ==> m.ogType == "website")
  {
  }

  /** A page that passes nothing gets the site defaults: the site title with
      the studio suffix, the studio description, and the hero image or the
      fixed photo. */
  lemma DefaultsWithoutProps(settings: Option<SiteSettings>)
    ensures var m := MetaFor(SeoProps(None, None, None, None), settings);
      && m.title == SiteTitle(settings) + StudioSuffix
      && m.description == DefaultDescription
      && m.ogImage == SiteImage(settings)
      && m.ogType == "website"
  {
  }

  /** Page values win over the defaults whenever they are nonempty. */
  lemma PropsOverrideDefaults(props: SeoProps, settings: Option<SiteSettings>)
    requires props.description.Some? && props.description.value != ""
    requires props.image.Some? && props.image.value != ""
    ensures MetaFor(props, settings).description == props.description.value
    ensures MetaFor(props, settings).ogImage == props.image.value
  {
  }
}
