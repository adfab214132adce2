/** The admin project editor: the slug derived from a new project's title,
    the comma-separated tag field, the gallery list, and the payload a save
    upserts. Letter case is ASCII only; the regular-expression classes are
    `\w` = ASCII letters, digits and `_`, and `\s` = `Text.IsSpace`. */
module ProjectEditor {
  import opened Common
  import opened Text

  // ---------------------------------------------------------------- slug

  /** `\w`. */
  predicate IsWordChar(c: char) { IsUpper(c) || IsLower(c) || IsDigit(c) || c == '_' }

  /** The characters `replace(/[^\w\s-]/g, '')` keeps. */
  predicate IsAllowed(c: char) { IsWordChar(c) || IsSpace(c) || c == '-' }

  /** The class `[\s_-]`. */
  predicate IsSep(c: char) { IsSpace(c) || c == '_' || c == '-' }

  predicate IsSlugChar(c: char) { IsLower(c) || IsDigit(c) || c == '-' }

  predicate NoDoubleDash(s: string)
  {
    forall i :: 0 <= i < |s| - 1 ==> !(s[i] == '-' && s[i + 1] == '-')
  }

  /** A well-formed slug: lower-case letters, digits and single hyphens, with
      no hyphen at either end. */
  predicate IsSlug(s: string)
  {
    && (forall i :: 0 <= i < |s| ==> IsSlugChar(s[i]))
    && (s == [] || (s[0] != '-' && s[|s| - 1] != '-'))
    && NoDoubleDash(s)
  }

  /** `replace(/[^\w\s-]/g, '')`: a character is in the result exactly when
      it is an allowed character of the input. */
  function RemoveDisallowed(s: string): (r: string)
    ensures |r| <= |s|
    ensures forall c :: c in r <==> c in s && IsAllowed(c)
  {
    Filter(s, IsAllowed)
  }

  /** Every allowed character is kept as often as it occurs, and every other
      one is removed entirely. */
  lemma RemoveDisallowedCounts(s: string)
    ensures forall c :: multiset(RemoveDisallowed(s))[c] == if IsAllowed(c) then multiset(s)[c] else 0
  {
    FilterCounts(s, IsAllowed);
  }

  /** The kept characters stay in their order: removing from a
      concatenation removes from each part. */
  lemma RemoveDisallowedConcat(a: string, b: string)
    ensures RemoveDisallowed(a + b) == RemoveDisallowed(a) + RemoveDisallowed(b)
  {
    FilterConcat(a, b, IsAllowed);
  }

  /** One disallowed character between two parts is simply cut out, and an
      allowed one stays where it was. */
  lemma RemoveDisallowedAt(a: string, c: char, b: string)
    ensures RemoveDisallowed(a + [c] + b) ==
      RemoveDisallowed(a) + (if IsAllowed(c) then [c] else []) + RemoveDisallowed(b)
  {
    FilterConcat(a + [c], b, IsAllowed);
    FilterConcat(a, [c], IsAllowed);
    FilterSingle(c, IsAllowed);
  }

  /** A string of allowed characters is left as it is. */
  lemma RemoveDisallowedKeepsAllowed(s: string)
    requires forall i :: 0 <= i < |s| ==> IsAllowed(s[i])
    ensures RemoveDisallowed(s) == s
  {
    FilterKeepsAll(s, IsAllowed);
  }

  /** `replace(/[\s_-]+/g, '-')`, scanning left to right: `inRun` says the
      previous character was a separator, whose run already produced its `-`. */
  function CollapseFrom(s: string, inRun: bool): string
  {
    if s == [] then [] else CollapseHead(s[0], inRun) + CollapseFrom(s[1..], IsSep(s[0]))
  }

  /** What collapsing emits for one character: a separator opening a run
      becomes one hyphen, one continuing a run nothing, and any other
      character itself. */
  function CollapseHead(c: char, inRun: bool): string
  {
    if IsSep(c) then (if inRun then [] else "-") else [c]
  }

  /** Every maximal run of separators becomes one hyphen. */
  function Collapse(s: string): string
  {
    CollapseFrom(s, false)
  }

  /** After collapsing, the only separator left is `-` and every other
      character comes from the input. */
  lemma {:induction false} CollapseChars(s: string, inRun: bool)
    ensures forall i :: 0 <= i < |CollapseFrom(s, inRun)| ==>
      CollapseFrom(s, inRun)[i] == '-' || (!IsSep(CollapseFrom(s, inRun)[i]) && CollapseFrom(s, inRun)[i] in s)
  {
    if s != [] {
      var r := CollapseFrom(s, inRun);
      var t := s[1..];
      var c := CollapseFrom(t, IsSep(s[0]));
      CollapseChars(t, IsSep(s[0]));
      var h := if IsSep(s[0]) then (if inRun then [] else "-") else [s[0]];
      assert r == h + c;
      assert forall x :: x in t ==> x in s;
      forall i | 0 <= i < |r| ensures r[i] == '-' || (!IsSep(r[i]) && r[i] in s) {
        if i >= |h| { assert r[i] == c[i - |h|]; }
      }
    }
  }

  /** After collapsing, no two hyphens touch, and inside a run nothing
      starts with another hyphen. */
  lemma {:induction false} CollapseNoDoubleDash(s: string, inRun: bool)
    ensures NoDoubleDash(CollapseFrom(s, inRun))
    ensures inRun && CollapseFrom(s, inRun) != [] ==> CollapseFrom(s, inRun)[0] != '-'
  {
    if s != [] {
      var r := CollapseFrom(s, inRun);
      var t := s[1..];
      var c := CollapseFrom(t, IsSep(s[0]));
      CollapseNoDoubleDash(t, IsSep(s[0]));
      var h := if IsSep(s[0]) then (if inRun then [] else "-") else [s[0]];
      assert r == h + c;
      forall i | 0 <= i < |r| - 1 ensures !(r[i] == '-' && r[i + 1] == '-') {
        if i >= |h| { assert r[i] == c[i - |h|] && r[i + 1] == c[i + 1 - |h|]; }
        else if c != [] { assert r[i + 1] == c[0]; }
      }
    }
  }

  /** `replace(/^-+|-+$/g, '')`: the hyphens at the start and at the end removed. */
  function DropLeadingDashes(s: string): (r: string)
    ensures |r| <= |s| && r == s[|s| - |r|..]
    ensures r == [] || r[0] != '-'
    ensures forall i :: 0 <= i < |s| - |r| ==> s[i] == '-'
  {
    if s != [] && s[0] == '-' then DropLeadingDashes(s[1..]) else s
  }

  function DropTrailingDashes(s: string): (r: string)
    ensures |r| <= |s| && r == s[..|r|]
    ensures r == [] || r[|r| - 1] != '-'
    ensures forall i :: |r| <= i < |s| ==> s[i] == '-'
  {
    if s != [] && s[|s| - 1] == '-' then DropTrailingDashes(s[..|s| - 1]) else s
  }

  function StripDashes(s: string): string
  {
    DropTrailingDashes(DropLeadingDashes(s))
  }

  /** The slug pipeline of the editor: lower-case, trim, drop disallowed
      characters, collapse separator runs, strip hyphens at the ends. */
  function Slug(title: string): string
  {
    StripDashes(Collapse(RemoveDisallowed(Trim(ToLower(title)))))
  }

  /** Every slug the pipeline produces is well formed. */
  lemma SlugIsSlug(title: string)
    ensures IsSlug(Slug(title))
  {
    var l := ToLower(title);
    var t := Trim(l);
    TrimPreserves(l, NotUpper);
    var d := RemoveDisallowed(t);
    CollapseChars(d, false);
    CollapseNoDoubleDash(d, false);
    var c := Collapse(d);
    assert forall i :: 0 <= i < |c| ==> IsSlugChar(c[i]);
    StripShape(c);
  }

  /** Stripping keeps the characters and the single hyphens, and leaves no
      hyphen at either end. */
  lemma StripShape(c: string)
    requires forall i :: 0 <= i < |c| ==> IsSlugChar(c[i])
    requires NoDoubleDash(c)
    ensures IsSlug(StripDashes(c))
  {
    var a := DropLeadingDashes(c);
    SliceKeepsShape(c, |c| - |a|, |c|);
    var r := DropTrailingDashes(a);
    SliceKeepsShape(a, 0, |r|);
  }

  /** A slice of slug characters without "--" is again such a string. */
  lemma SliceKeepsShape(c: string, lo: int, hi: int)
    requires 0 <= lo <= hi <= |c|
    requires forall i :: 0 <= i < |c| ==> IsSlugChar(c[i])
    requires NoDoubleDash(c)
    ensures forall i :: 0 <= i < hi - lo ==> IsSlugChar(c[lo..hi][i])
    ensures NoDoubleDash(c[lo..hi])
  {
    var t := c[lo..hi];
    assert forall i :: 0 <= i < |t| ==> t[i] == c[lo + i];
  }

  /** On the slug alphabet the only separator is the hyphen. */
  lemma SlugCharSep(c: char)
    requires IsSlugChar(c)
    ensures IsSep(c) <==> c == '-'
    ensures IsAllowed(c) && !IsUpper(c)
  {
  }

  predicate NotUpper(c: char) { !IsUpper(c) }

  /** Lower-casing leaves a string without upper-case letters alone. */
  lemma LowerOfNoUpper(s: string)
    requires forall i :: 0 <= i < |s| ==> !IsUpper(s[i])
    ensures ToLower(s) == s
  {
  }

  /** A well-formed slug has no hyphen, hence no space, at either end. */
  lemma SlugEnds(s: string)
    requires IsSlug(s) && s != []
    ensures !IsSep(s[0]) && !IsSep(s[|s| - 1])
    ensures !IsSpace(s[0]) && !IsSpace(s[|s| - 1])
  {
    SlugCharSep(s[0]);
    SlugCharSep(s[|s| - 1]);
  }

  /** A well-formed slug passes through every stage unchanged. */
  lemma SlugOfSlug(s: string)
    requires IsSlug(s)
    ensures Slug(s) == s
  {
    forall i | 0 <= i < |s| ensures IsAllowed(s[i]) && !IsUpper(s[i]) {
      SlugCharSep(s[i]);
    }
    LowerOfNoUpper(s);
    if s != [] {
      SlugEnds(s);
    }
    TrimOfTrimmed(s);
    FilterKeepsAll(s, IsAllowed);
    CollapseOfSlug(s, false);
    assert Collapse(RemoveDisallowed(Trim(ToLower(s)))) == s;
    StripOfSlug(s);
  }

  /** Deriving the slug again from a slug changes nothing. */
  lemma SlugIdempotent(title: string)
    ensures Slug(Slug(title)) == Slug(title)
  {
    SlugIsSlug(title);
    SlugOfSlug(Slug(title));
  }

  /** Stripping the hyphens of a slug changes nothing. */
  lemma StripOfSlug(s: string)
    requires IsSlug(s)
    ensures StripDashes(s) == s
  {
    assert DropLeadingDashes(s) == s;
  }

  /** Collapsing leaves slug characters without "--" unchanged, provided a
      run in progress is not continued by a hyphen. */
  lemma {:induction false} CollapseOfSlug(s: string, inRun: bool)
    requires forall i :: 0 <= i < |s| ==> IsSlugChar(s[i])
    requires NoDoubleDash(s)
    requires inRun ==> s == [] || s[0] != '-'
    ensures CollapseFrom(s, inRun) == s
  {
    if s != [] {
      var t := s[1..];
      SlugCharSep(s[0]);
      assert forall i :: 0 <= i < |t| ==> t[i] == s[i + 1];
      if |s| > 1 {
        assert !(s[0] == '-' && s[1] == '-');
      }
      CollapseOfSlug(t, s[0] == '-');
      assert [s[0]] + t == s;
    }
  }

  /** Whether a run of separators is in progress after `a`. */
  function RunAfter(a: string, inRun: bool): bool
  {
    if a == [] then inRun else IsSep(a[|a| - 1])
  }

  /** Collapsing a concatenation collapses the second part from where the
      first left off. */
  lemma {:induction false} CollapseAppend(a: string, b: string, inRun: bool)
    ensures CollapseFrom(a + b, inRun) == CollapseFrom(a, inRun) + CollapseFrom(b, RunAfter(a, inRun))
  {
    if a == [] {
      assert a + b == b;
    } else {
      var t := a[1..];
      assert (a + b)[0] == a[0] && (a + b)[1..] == t + b;
      CollapseAppend(t, b, IsSep(a[0]));
      assert RunAfter(t, IsSep(a[0])) == RunAfter(a, inRun);
      var h := CollapseHead(a[0], inRun);
      assert h + (CollapseFrom(t, IsSep(a[0])) + CollapseFrom(b, RunAfter(a, inRun)))
        == h + CollapseFrom(t, IsSep(a[0])) + CollapseFrom(b, RunAfter(a, inRun));
    }
  }

  /** Collapsing works on each side of a point not preceded by a separator. */
  lemma CollapseConcat(a: string, b: string, inRun: bool)
    requires a != [] && !IsSep(a[|a| - 1])
    ensures CollapseFrom(a + b, inRun) == CollapseFrom(a, inRun) + CollapseFrom(b, false)
  {
    CollapseAppend(a, b, inRun);
  }

  /** A run of separators in front of a non-separator collapses to one hyphen. */
  lemma {:induction false} CollapseRun(run: string, b: string, inRun: bool)
    requires run != [] && forall i :: 0 <= i < |run| ==> IsSep(run[i])
    requires b == [] || !IsSep(b[0])
    ensures CollapseFrom(run + b, inRun) == (if inRun then [] else "-") + CollapseFrom(b, false)
  {
    var t := run[1..];
    assert (run + b)[0] == run[0] && (run + b)[1..] == t + b;
    if t == [] {
      assert t + b == b;
      if b != [] {
        assert CollapseFrom(b, true) == CollapseFrom(b, false);
      }
    } else {
      CollapseRun(t, b, true);
    }
  }

  /** Collapsing two collapse-stable texts around a run of separators leaves
      one hyphen between them. */
  lemma CollapseAround(a: string, run: string, b: string)
    requires a != [] && !IsSep(a[|a| - 1]) && CollapseFrom(a, false) == a
    requires run != [] && forall i :: 0 <= i < |run| ==> IsSep(run[i])
    requires (b == [] || !IsSep(b[0])) && CollapseFrom(b, false) == b
    ensures Collapse(a + run + b) == a + "-" + b
  {
    var rb := run + b;
    assert a + run + b == a + rb;
    CollapseConcat(a, rb, false);
    CollapseRun(run, b, false);
    calc {
      Collapse(a + run + b);
      CollapseFrom(a + rb, false);
      CollapseFrom(a, false) + CollapseFrom(rb, false);
      a + ("-" + CollapseFrom(b, false));
      a + "-" + b;
    }
  }

  /** Collapsing two slugs around a run of separators leaves one hyphen between them. */
  lemma CollapseJoin(a: string, run: string, b: string)
    requires IsSlug(a) && a != [] && IsSlug(b) && b != []
    requires run != [] && forall i :: 0 <= i < |run| ==> IsSep(run[i])
    ensures Collapse(a + run + b) == a + "-" + b
  {
    SlugEnds(a);
    SlugEnds(b);
    CollapseOfSlug(a, false);
    CollapseOfSlug(b, false);
    CollapseAround(a, run, b);
  }

  /** Two slugs joined by one hyphen form a slug. */
  lemma JoinIsSlug(a: string, b: string)
    requires IsSlug(a) && a != [] && IsSlug(b) && b != []
    ensures IsSlug(a + "-" + b)
  {
    var j := a + "-" + b;
    assert forall i :: 0 <= i < |j| ==> IsSlugChar(j[i]) by {
      forall i | 0 <= i < |j| ensures IsSlugChar(j[i]) {
        if i < |a| { assert j[i] == a[i]; }
        else if i > |a| { assert j[i] == b[i - |a| - 1]; }
      }
    }
    forall i | 0 <= i < |j| - 1 ensures !(j[i] == '-' && j[i + 1] == '-') {
      if i < |a| - 1 { assert j[i] == a[i] && j[i + 1] == a[i + 1]; }
      else if i == |a| - 1 { assert j[i] == a[|a| - 1]; }
      else if i == |a| { assert j[i + 1] == b[0]; }
      else { assert j[i] == b[i - |a| - 1] && j[i + 1] == b[i - |a|]; }
    }
  }

  /** The joined text has no upper-case letter and nothing the filter drops. */
  lemma JoinedCharsKept(a: string, run: string, b: string)
    requires IsSlug(a) && IsSlug(b)
    requires forall i :: 0 <= i < |run| ==> IsSep(run[i])
    ensures forall i :: 0 <= i < |a + run + b| ==> !IsUpper((a + run + b)[i]) && IsAllowed((a + run + b)[i])
  {
    var s := a + run + b;
    forall i | 0 <= i < |s| ensures !IsUpper(s[i]) && IsAllowed(s[i]) {
      if i < |a| { SlugCharSep(a[i]); assert s[i] == a[i]; }
      else if i < |a| + |run| { assert s[i] == run[i - |a|]; }
      else { SlugCharSep(b[i - |a| - |run|]); assert s[i] == b[i - |a| - |run|]; }
    }
  }

  /** Every run of spaces, underscores and hyphens between two slugs becomes
      exactly one hyphen. */
  lemma SlugJoinsWords(a: string, run: string, b: string)
    requires IsSlug(a) && a != [] && IsSlug(b) && b != []
    requires run != [] && forall i :: 0 <= i < |run| ==> IsSep(run[i])
    ensures Slug(a + run + b) == a + "-" + b
  {
    var s := a + run + b;
    JoinedCharsKept(a, run, b);
    LowerOfNoUpper(s);
    SlugEnds(a);
    SlugEnds(b);
    assert s[0] == a[0] && s[|s| - 1] == b[|b| - 1];
    TrimOfTrimmed(s);
    FilterKeepsAll(s, IsAllowed);
    CollapseJoin(a, run, b);
    JoinIsSlug(a, b);
    assert Collapse(RemoveDisallowed(Trim(ToLower(s)))) == a + "-" + b;
    StripOfSlug(a + "-" + b);
  }

  // ---------------------------------------------------------------- tags

  /** `map(t => t.trim())`. */
  function TrimEach(parts: seq<string>): (r: seq<string>)
    ensures |r| == |parts|
    ensures forall i :: 0 <= i < |parts| ==> r[i] == Trim(parts[i])
  {
    if parts == [] then []
    else [Trim(parts[0])] + TrimEach(parts[1..])
  }

  predicate NonEmpty(t: string) { t != [] }

  /** A tag as the parser returns it: non-empty, without commas, and with no
      space at either end. */
  predicate IsCleanTag(t: string)
  {
    t != [] && ',' !in t && !IsSpace(t[0]) && !IsSpace(t[|t| - 1])
  }

  /** `tagsInput.split(',').map(t => t.trim()).filter(t => t.length > 0)`. */
  function ParseTags(input: string): seq<string>
  {
    Filter(TrimEach(Split(input, ',')), NonEmpty)
  }

  predicate NotComma(c: char) { c != ',' }

  /** The non-empty trim of a comma-free field is a clean tag. */
  lemma TrimmedFieldIsClean(p: string)
    requires ',' !in p && Trim(p) != []
    ensures IsCleanTag(Trim(p))
  {
    forall i | 0 <= i < |p| ensures NotComma(p[i]) {
      assert p[i] in p;
    }
    TrimPreserves(p, NotComma);
    var t := Trim(p);
    assert forall i :: 0 <= i < |t| ==> t[i] != ',';
  }

  /** Every parsed tag is clean. */
  lemma ParsedTagsAreClean(input: string)
    ensures forall i :: 0 <= i < |ParseTags(input)| ==> IsCleanTag(ParseTags(input)[i])
  {
    var parts := Split(input, ',');
    var trimmed := TrimEach(parts);
    var tags := Filter(trimmed, NonEmpty);
    assert tags == ParseTags(input);
    forall i | 0 <= i < |tags| ensures IsCleanTag(tags[i]) {
      var t := tags[i];
      assert t in tags;
      assert t in trimmed && t != [];
      var j :| 0 <= j < |trimmed| && trimmed[j] == t;
      assert t == Trim(parts[j]) && ',' !in parts[j];
      TrimmedFieldIsClean(parts[j]);
    }
  }

  /** Trimming each piece of a concatenation trims each part. */
  lemma {:induction false} TrimEachConcat(pa: seq<string>, pb: seq<string>)
    ensures TrimEach(pa + pb) == TrimEach(pa) + TrimEach(pb)
  {
    if pa == [] {
      assert pa + pb == pb;
    } else {
      assert (pa + pb)[0] == pa[0] && (pa + pb)[1..] == pa[1..] + pb;
      TrimEachConcat(pa[1..], pb);
    }
  }

  /** Parsing keeps the order of the input: text before a comma yields its
      tags before the tags of the text after it. */
  lemma ParseTagsConcat(a: string, b: string)
    ensures ParseTags(a + "," + b) == ParseTags(a) + ParseTags(b)
  {
    assert a + "," + b == a + [','] + b;
    SplitConcat(a, b, ',');
    var pa := Split(a, ',');
    var pb := Split(b, ',');
    TrimEachConcat(pa, pb);
    FilterConcat(TrimEach(pa), TrimEach(pb), NonEmpty);
  }

  /** Text without a comma is one field: its trim, or no tag when that is empty. */
  lemma ParseOneField(p: string)
    requires ',' !in p
    ensures ParseTags(p) == if Trim(p) == [] then [] else [Trim(p)]
  {
    SplitNoSep(p, ',');
    var x := Trim(p);
    assert TrimEach([p]) == [x];
    FilterSingle(x, NonEmpty);
    assert ParseTags(p) == Filter([x], NonEmpty);
  }

  /** Spaces followed by a clean tag hold no comma. */
  lemma PaddedHasNoComma(pad: string, t: string)
    requires AllSpace(pad) && ',' !in t
    ensures ',' !in pad + t
  {
    forall i | 0 <= i < |pad + t| ensures (pad + t)[i] != ',' {
      if i < |pad| { assert (pad + t)[i] == pad[i]; } else { assert (pad + t)[i] == t[i - |pad|]; }
    }
  }

  /** A single clean tag after some padding parses to itself. */
  lemma ParsePaddedTag(pad: string, t: string)
    requires AllSpace(pad) && IsCleanTag(t)
    ensures ParseTags(pad + t) == [t]
  {
    var x := pad + t;
    PaddedHasNoComma(pad, t);
    var none: string := [];
    assert AllSpace(none);
    assert pad + t + none == x;
    TrimPadded(pad, t, none);
    assert Trim(x) == t;
    ParseOneField(x);
  }

  /** Padding alone holds no tag. */
  lemma ParsePadding(pad: string)
    requires AllSpace(pad)
    ensures ParseTags(pad) == []
  {
    assert ',' !in pad;
    ParseOneField(pad);
    TrimAllSpace(pad);
  }

  /** The ", " between two tags is the comma the parser splits at, followed
      by a space that pads the next field. */
  lemma CommaSpaceSplits(pad: string, t: string, j: string)
    ensures pad + (t + ", " + j) == (pad + t) + "," + (" " + j)
  {
    assert ", " == "," + " ";
  }

  /** A clean tag after some padding, then ", " and text that parses to
      `rest`, parses to the tag followed by `rest`. */
  lemma ParseConsTag(pad: string, t: string, j: string, rest: seq<string>)
    requires AllSpace(pad) && IsCleanTag(t)
    requires ParseTags(" " + j) == rest
    ensures ParseTags(pad + (t + ", " + j)) == [t] + rest
  {
    var x := pad + t;
    var y := " " + j;
    CommaSpaceSplits(pad, t, j);
    ParseTagsConcat(x, y);
    ParsePaddedTag(pad, t);
  }

  lemma {:induction false} PaddedTagsRoundTrip(pad: string, tags: seq<string>)
    requires AllSpace(pad)
    requires forall i :: 0 <= i < |tags| ==> IsCleanTag(tags[i])
    ensures ParseTags(pad + Join(tags, ", ")) == tags
    decreases |tags|
  {
    if tags == [] {
      assert pad + Join(tags, ", ") == pad;
      ParsePadding(pad);
    } else if |tags| == 1 {
      ParsePaddedTag(pad, tags[0]);
    } else {
      var rest := tags[1..];
      assert forall i :: 0 <= i < |rest| ==> rest[i] == tags[i + 1];
      assert AllSpace(" ");
      PaddedTagsRoundTrip(" ", rest);
      assert Join(tags, ", ") == tags[0] + ", " + Join(rest, ", ");
      ParseConsTag(pad, tags[0], Join(rest, ", "), rest);
      assert [tags[0]] + rest == tags;
    }
  }

  /** The tag field of an existing project shows its tags joined by ", ";
      saving without editing the field stores the same tags. */
  lemma TagsRoundTrip(tags: seq<string>)
    requires forall i :: 0 <= i < |tags| ==> IsCleanTag(tags[i])
    ensures ParseTags(Join(tags, ", ")) == tags
  {
    var none: string := [];
    var j := Join(tags, ", ");
    assert AllSpace(none);
    PaddedTagsRoundTrip(none, tags);
    assert none + j == j;
  }

  // ---------------------------------------------------------------- editor

  /** A row of `projects` as the editor receives it; nullable columns are options. */
  datatype Project = Project(
    id: Option<string>,
    title: string,
    slug: string,
    description: string,
    imageUrl: string,
    narrativeImageUrl: Option<string>,
    galleryImages: Option<seq<string>>,
    tags: Option<seq<string>>,
    location: Option<string>,
    year: Option<string>,
    client: Option<string>,
    status: Option<string>)

  /** The editor's form. `year` and `status` come from the row as they are,
      so they may be null. */
  datatype ProjectForm = ProjectForm(
    id: Option<string>,
    title: string,
    slug: string,
    description: string,
    imageUrl: string,
    narrativeImageUrl: string,
    galleryImages: seq<string>,
    location: string,
    year: Option<string>,
    client: string,
    status: Option<string>)

  /** The upserted record; `id` is present only for a known project. */
  datatype ProjectPayload = ProjectPayload(
    id: Option<string>,
    title: string,
    slug: string,
    description: string,
    imageUrl: string,
    narrativeImageUrl: Option<string>,
    tags: seq<string>,
    location: string,
    year: string,
    client: string,
    status: string,
    galleryImages: seq<string>)

  /** A nullable text column as the form holds it: null becomes ''. */
  function ValueOrEmpty(v: Option<string>): string
  {
    if v.Some? then v.value else ""
  }

  /** The form's initial value: defaults, overwritten by the project's own
      fields, with the gallery, narrative image, location and client never null. */
  function InitialForm(project: Option<Project>, currentYear: string): (f: ProjectForm)
    ensures project.None? ==> f == ProjectForm(None, "", "", "", "", "", [], "", Some(currentYear), "", Some("In Progress"))
    ensures project.Some? ==> f.id == project.value.id && f.slug == project.value.slug && f.year == project.value.year && f.status == project.value.status
    ensures project.Some? ==> f.title == project.value.title && f.description == project.value.description && f.imageUrl == project.value.imageUrl
    ensures project.Some? ==> f.narrativeImageUrl == ValueOrEmpty(project.value.narrativeImageUrl)
    ensures project.Some? ==> f.location == ValueOrEmpty(project.value.location) && f.client == ValueOrEmpty(project.value.client)
    ensures project.Some? && project.value.galleryImages.Some? ==> f.galleryImages == project.value.galleryImages.value
    ensures project.Some? && project.value.galleryImages.None? ==> f.galleryImages == []
  {
    match project
    case None => ProjectForm(None, "", "", "", "", "", [], "", Some(currentYear), "", Some("In Progress"))
    case Some(p) =>
      ProjectForm(p.id, p.title, p.slug, p.description, p.imageUrl,
                  NullableOr(p.narrativeImageUrl, ""),
                  if p.galleryImages.Some? then p.galleryImages.value else [],
                  NullableOr(p.location, ""), p.year, NullableOr(p.client, ""), p.status)
  }

  /** The tag field's initial text. */
  function InitialTagsInput(project: Option<Project>): (s: string)
    ensures project.None? || project.value.tags.None? ==> s == ""
    ensures project.Some? && project.value.tags.Some? ==> s == Join(project.value.tags.value, ", ")
  {
    if project.Some? && project.value.tags.Some? then Join(project.value.tags.value, ", ") else ""
  }

  /** `if (formData.id)`: an empty id is falsy. */
  predicate HasId(f: ProjectForm)
  {
    f.id.Some? && f.id.value != ""
  }

  /** The record a save upserts. */
  function PayloadOf(f: ProjectForm, tagsInput: string, currentYear: string): (p: ProjectPayload)
    ensures p.id.Some? <==> HasId(f)
    ensures p.id.Some? ==> p.id == f.id
    ensures p.narrativeImageUrl.None? <==> f.narrativeImageUrl == ""
    ensures p.narrativeImageUrl.Some? ==> p.narrativeImageUrl.value == f.narrativeImageUrl
    ensures p.status == (if f.status.Some? && f.status.value != "" then f.status.value else "In Progress")
    ensures p.year == (if f.year.Some? && f.year.value != "" then f.year.value else currentYear)
    ensures p.tags == ParseTags(tagsInput)
    ensures p.galleryImages == f.galleryImages && p.slug == f.slug && p.title == f.title
  {
    ProjectPayload(
      if HasId(f) then f.id else None,
      f.title, f.slug, f.description, f.imageUrl,
      if f.narrativeImageUrl == "" then None else Some(f.narrativeImageUrl),
      ParseTags(tagsInput),
      f.location,
      NullableOr(f.year, currentYear),
      f.client,
      NullableOr(f.status, "In Progress"),
      f.galleryImages)
  }

  /** Every payload carries clean tags and a non-empty status and year
      (when the current year is non-empty). */
  lemma PayloadIsComplete(f: ProjectForm, tagsInput: string, currentYear: string)
    ensures var p := PayloadOf(f, tagsInput, currentYear);
      p.status != "" && (currentYear != "" ==> p.year != "") &&
      forall i :: 0 <= i < |p.tags| ==> IsCleanTag(p.tags[i])
  {
    ParsedTagsAreClean(tagsInput);
  }

  /** Opening an existing project with clean tags and saving it without
      editing anything writes back the project's own fields: the same id,
      texts and tags, its gallery (or none), its nullable columns with null
      as '' (a narrative image only when there is one), and its year and
      status unless they are empty. */
  lemma UnchangedSaveKeepsProject(p: Project, currentYear: string)
    requires p.id.Some? && p.id.value != ""
    requires p.tags.Some? && forall i :: 0 <= i < |p.tags.value| ==> IsCleanTag(p.tags.value[i])
    ensures var q := PayloadOf(InitialForm(Some(p), currentYear), InitialTagsInput(Some(p)), currentYear);
      && q.id == p.id && q.title == p.title && q.slug == p.slug
      && q.description == p.description && q.imageUrl == p.imageUrl
      && q.tags == p.tags.value
      && q.galleryImages == (if p.galleryImages.Some? then p.galleryImages.value else [])
      && q.location == ValueOrEmpty(p.location) && q.client == ValueOrEmpty(p.client)
      && (q.narrativeImageUrl.Some? <==> ValueOrEmpty(p.narrativeImageUrl) != "")
      && (q.narrativeImageUrl.Some? ==> q.narrativeImageUrl == p.narrativeImageUrl)
      && (p.year.Some? && p.year.value != "" ==> q.year == p.year.value)
      && (p.status.Some? && p.status.value != "" ==> q.status == p.status.value)
  {
    TagsRoundTrip(p.tags.value);
  }

  /** What the gallery upload produced: every file's public URL, or the first error. */
  datatype UploadResult = Uploaded(urls: seq<string>) | UploadFailed(message: string)

  /** What the upsert produced: an error, or the saved row's id (if it came back). */
  datatype SaveResult = SaveFailed(message: string) | Saved(returnedId: Option<string>)

  const SavedMessage := "Project Saved Successfully"
  const SaveErrorFallback := "Database Error"

  class Editor {
    /** The editor was opened without a project: it is creating one. */
    const creating: bool
    var form: ProjectForm
    var tagsInput: string
    var feedback: Option<Feedback>

    constructor (project: Option<Project>, currentYear: string)
      ensures creating == project.None?
      ensures form == InitialForm(project, currentYear)
      ensures tagsInput == InitialTagsInput(project)
      ensures feedback == None
    {
      creating := project.None?;
      form := InitialForm(project, currentYear);
      tagsInput := InitialTagsInput(project);
      feedback := None;
    }

    /** Typing into the title, followed by the slug effect: only while
        creating, and only for a non-empty title, the slug is re-derived. */
    method SetTitle(title: string)
      modifies this
      ensures form == old(form).(title := title, slug := if creating && title != "" then Slug(title) else old(form).slug)
      ensures IsSlug(form.slug) || form.slug == old(form.slug)
      ensures tagsInput == old(tagsInput) && feedback == old(feedback)
    {
      var slug := form.slug;
      if creating && title != "" {
        slug := Slug(title);
        SlugIsSlug(title);
      }
      form := form.(title := title, slug := slug);
    }

    /** Editing the slug field by hand. */
    method SetSlug(slug: string)
      modifies this
      ensures form == old(form).(slug := slug)
      ensures tagsInput == old(tagsInput) && feedback == old(feedback)
    {
      form := form.(slug := slug);
    }

    method SetTagsInput(s: string)
      modifies this
      ensures tagsInput == s && form == old(form) && feedback == old(feedback)
    {
      tagsInput := s;
    }

    /** `handleGalleryUpload`: all new URLs go after the existing ones, or
        none does and the error is shown. */
    method UploadGallery(r: UploadResult)
      modifies this
      ensures r.Uploaded? ==> form == old(form).(galleryImages := old(form.galleryImages) + r.urls)
      ensures r.Uploaded? ==> feedback == old(feedback)
      ensures r.UploadFailed? ==> form == old(form) && feedback == Some(ErrorNote(OrElse(r.message, "Gallery upload failed.")))
      ensures tagsInput == old(tagsInput)
    {
      match r {
        case Uploaded(urls) =>
          form := form.(galleryImages := form.galleryImages + urls);
        case UploadFailed(m) =>
          feedback := Some(ErrorNote(OrElse(m, "Gallery upload failed.")));
      }
    }

    /** `removeGalleryImage`. */
    method RemoveGalleryImage(i: int)
      modifies this
      ensures form == old(form).(galleryImages := RemoveIndex(old(form.galleryImages), i))
      ensures tagsInput == old(tagsInput) && feedback == old(feedback)
    {
      form := form.(galleryImages := RemoveIndex(form.galleryImages, i));
    }

    /** `handleSubmit`: the payload is upserted; a returned id is kept only
        when the form had none, so the next save is an update. */
    method Save(currentYear: string, r: SaveResult) returns (p: ProjectPayload)
      modifies this
      ensures p == PayloadOf(old(form), old(tagsInput), currentYear)
      ensures r.SaveFailed? ==> form == old(form) && feedback == Some(ErrorNote(OrElse(r.message, SaveErrorFallback)))
      ensures r.Saved? && r.returnedId.Some? && !HasId(old(form)) ==> form == old(form).(id := r.returnedId)
      ensures r.Saved? && (r.returnedId.None? || HasId(old(form))) ==> form == old(form)
      ensures r.Saved? ==> feedback == Some(SuccessNote(SavedMessage))
      ensures tagsInput == old(tagsInput)
    {
      p := PayloadOf(form, tagsInput, currentYear);
      ApplySave(r);
    }

    /** What the upsert's answer does to the form and the feedback. */
    method ApplySave(r: SaveResult)
      modifies this
      ensures r.SaveFailed? ==> form == old(form) && feedback == Some(ErrorNote(OrElse(r.message, SaveErrorFallback)))
      ensures r.Saved? && r.returnedId.Some? && !HasId(old(form)) ==> form == old(form).(id := r.returnedId)
      ensures r.Saved? && (r.returnedId.None? || HasId(old(form))) ==> form == old(form)
      ensures r.Saved? ==> feedback == Some(SuccessNote(SavedMessage))
      ensures tagsInput == old(tagsInput)
    {
      match r {
        case SaveFailed(m) =>
          feedback := Some(ErrorNote(OrElse(m, SaveErrorFallback)));
        case Saved(returned) =>
          if returned.Some? && !HasId(form) {
            form := form.(id := returned);
          }
          feedback := Some(SuccessNote(SavedMessage));
      }
    }
  }

  /** After a first save returns a non-empty id, the next payload carries it. */
  lemma SecondSaveUpdates(f: ProjectForm, id: string, tagsInput: string, currentYear: string)
    requires !HasId(f) && id != ""
    ensures PayloadOf(f, tagsInput, currentYear).id.None?
    ensures PayloadOf(f.(id := Some(id)), tagsInput, currentYear).id == Some(id)
  {
  }
}
