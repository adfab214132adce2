/** The coupon record, and the rules that the admin coupon manager and the
    checkout coupon form share: code normalisation, expiry and sold-out. */
module Coupons {
  import opened Common
  import opened Text

  /** A row of `coupons`. Instants (`expiry`, `createdAt`) are milliseconds
      since the epoch. */
  datatype Coupon = Coupon(
    id: int,
    code: string,
    discountAmount: int,
    isPublic: bool,
    specificUserId: Option<string>,
    expiry: Option<int>,
    usageLimit: int,
    usedCount: int,
    createdAt: int)

  /** `code.toUpperCase().trim()`: no lower-case ASCII letter and no space at either end. */
  function Normalize(code: string): (r: string)
    ensures forall i :: 0 <= i < |r| ==> !IsLower(r[i])
    ensures r == [] || (!IsSpace(r[0]) && !IsSpace(r[|r| - 1]))
    ensures |r| <= |code|
  {
    var u := ToUpper(code);
    UpperHasNoLower(code);
    TrimPreserves(u, NotLower);
    Trim(u)
  }

  predicate NotLower(c: char) { !IsLower(c) }

  /** Upper-casing leaves no lower-case letter. */
  lemma UpperHasNoLower(s: string)
    ensures forall i :: 0 <= i < |ToUpper(s)| ==> NotLower(ToUpper(s)[i])
  {
  }

  /** Normalising a normalised code changes nothing, so a stored code typed
      back exactly as the manager lists it is found again. */
  lemma NormalizeIdempotent(code: string)
    ensures Normalize(Normalize(code)) == Normalize(code)
  {
    var n := Normalize(code);
    var u := ToUpper(n);
    forall i | 0 <= i < |n| ensures u[i] == n[i] {
      assert !IsLower(n[i]);
    }
    assert u == n;
    TrimOfTrimmed(n);
  }

  /** Upper-casing distributes over concatenation. */
  lemma ToUpperConcat(a: string, b: string)
    ensures ToUpper(a + b) == ToUpper(a) + ToUpper(b)
  {
    var l := ToUpper(a + b);
    var r := ToUpper(a) + ToUpper(b);
    forall i | 0 <= i < |l| ensures l[i] == r[i] {
      if i < |a| {
        assert (a + b)[i] == a[i];
      } else {
        assert (a + b)[i] == b[i - |a|];
      }
    }
  }

  /** Upper-casing keeps exactly the spaces where they were. */
  lemma UpperKeepsSpace(s: string)
    ensures forall i :: 0 <= i < |s| ==> (IsSpace(ToUpper(s)[i]) <==> IsSpace(s[i]))
  {
  }

  /** A code typed in any case, with any white space around it, normalises
      to the upper-cased code itself. */
  lemma NormalizePadded(pre: string, w: string, post: string)
    requires AllSpace(pre) && AllSpace(post)
    requires w != [] && !IsSpace(w[0]) && !IsSpace(w[|w| - 1])
    ensures Normalize(pre + w + post) == ToUpper(w)
  {
    ToUpperConcat(pre + w, post);
    ToUpperConcat(pre, w);
    UpperKeepsSpace(pre);
    UpperKeepsSpace(w);
    UpperKeepsSpace(post);
    TrimPadded(ToUpper(pre), ToUpper(w), ToUpper(post));
  }

  /** A code made only of white space normalises to the empty code. */
  lemma NormalizeAllSpace(code: string)
    requires AllSpace(code)
    ensures Normalize(code) == []
  {
    UpperKeepsSpace(code);
    TrimAllSpace(ToUpper(code));
  }

  /** `isExpired`: no expiry never expires; otherwise expired exactly when
      the expiry instant lies strictly before `now`. */
  predicate IsExpired(expiry: Option<int>, now: int)
  {
    expiry.Some? && expiry.value < now
  }

  /** The sold-out test used for the coupon cards and at checkout. */
  predicate IsSoldOut(c: Coupon)
  {
    c.usedCount >= c.usageLimit
  }

  /** The three expiry cases the checkout relies on. */
  lemma ExpiryCases(expiry: Option<int>, now: int)
    ensures expiry.None? ==> !IsExpired(expiry, now)
    ensures expiry == Some(now) ==> !IsExpired(expiry, now)
    ensures expiry.Some? && expiry.value < now ==> IsExpired(expiry, now)
  {
  }
}
