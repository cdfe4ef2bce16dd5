/**
 * `encodeURIComponent`, used by createRoom to put a member's name into the
 * query string of the join link: every code unit outside the unreserved set
 * becomes the percent-escaped UTF-8 bytes of its code point, and a lone
 * surrogate throws a URIError (None here).
 */
module UriEncoding {
  import opened Wrappers
  import opened JsText


  /** Letters, digits and `-_.!~*'()`: the units encodeURIComponent copies unchanged. */
  predicate Unreserved(u: Unit)
  {
    (0x41 <= u <= 0x5A) || (0x61 <= u <= 0x7A) || (0x30 <= u <= 0x39)
    || u == 0x2D || u == 0x5F || u == 0x2E || u == 0x21 || u == 0x7E
    || u == 0x2A || u == 0x27 || u == 0x28 || u == 0x29
  }

  predicate IsLead(u: Unit) { 0xD800 <= u <= 0xDBFF }

  predicate IsTrail(u: Unit) { 0xDC00 <= u <= 0xDFFF }

  /** Every lead surrogate is followed by a trail surrogate and every trail one preceded by a lead one. */
  predicate WellFormed(s: Str)
  {
    (forall i :: 0 <= i < |s| && IsLead(s[i]) ==> i + 1 < |s| && IsTrail(s[i + 1]))
    && (forall i :: 0 <= i < |s| && IsTrail(s[i]) ==> i > 0 && IsLead(s[i - 1]))
  }

  /** The code point of a surrogate pair. */
  function PairCodePoint(lead: Unit, trail: Unit): (cp: int)
    requires IsLead(lead) && IsTrail(trail)
    ensures 0x1_0000 <= cp < 0x11_0000
  {
    0x1_0000 + (lead - 0xD800) * 0x400 + (trail - 0xDC00)
  }

  /** The UTF-8 bytes of a code point. */
  function Utf8(cp: int): (bytes: seq<int>)
    requires 0 <= cp < 0x11_0000
    ensures 1 <= |bytes| <= 4
    ensures forall i :: 0 <= i < |bytes| ==> 0 <= bytes[i] < 0x100
  {
    if cp < 0x80 then [cp]
    else if cp < 0x800 then [0xC0 + cp / 0x40, 0x80 + cp % 0x40]
    else if cp < 0x1_0000 then [0xE0 + cp / 0x1000, 0x80 + (cp / 0x40) % 0x40, 0x80 + cp % 0x40]
    else [0xF0 + cp / 0x4_0000, 0x80 + (cp / 0x1000) % 0x40, 0x80 + (cp / 0x40) % 0x40, 0x80 + cp % 0x40]
  }

  function HexDigit(d: int): (u: Unit)
    requires 0 <= d < 16
    ensures Unreserved(u)
  {
    if d < 10 then 0x30 + d else 0x41 + (d - 10)
  }

  /** `%XX` with upper-case hexadecimal digits for every byte. */
  function Escape(bytes: seq<int>): (r: Str)
    requires forall i :: 0 <= i < |bytes| ==> 0 <= bytes[i] < 0x100
    ensures |r| == 3 * |bytes|
    ensures forall i :: 0 <= i < |r| ==> r[i] == PERCENT || Unreserved(r[i])
  {
    if bytes == [] then []
    else [PERCENT, HexDigit(bytes[0] / 16), HexDigit(bytes[0] % 16)] + Escape(bytes[1..])
  }

  function Prepend(prefix: Str, rest: Option<Str>): Option<Str>
  {
    match rest
    case None => None
    case Some(t) => Some(prefix + t)
  }

  /** `encodeURIComponent(s)`; None where JavaScript throws a URIError. */
  function EncodeURIComponent(s: Str): (r: Option<Str>)
    ensures r.Some? ==> forall i :: 0 <= i < |r.value| ==> r.value[i] == PERCENT || Unreserved(r.value[i])
    decreases |s|
  {
    if s == [] then Some([])
    else if Unreserved(s[0]) then Prepend([s[0]], EncodeURIComponent(s[1..]))
    else if IsLead(s[0]) && |s| >= 2 && IsTrail(s[1]) then
      Prepend(Escape(Utf8(PairCodePoint(s[0], s[1]))), EncodeURIComponent(s[2..]))
    else if IsLead(s[0]) || IsTrail(s[0]) then None
    else Prepend(Escape(Utf8(s[0])), EncodeURIComponent(s[1..]))
  }

  /** Dropping a first unit that is not a surrogate keeps well-formedness both ways. */
  lemma WellFormedTail(s: Str)
    requires s != [] && !IsLead(s[0]) && !IsTrail(s[0])
    ensures WellFormed(s) <==> WellFormed(s[1..])
  {
    var t := s[1..];
    if WellFormed(t) {
      forall i | 0 <= i < |s| && IsTrail(s[i]) ensures i > 0 && IsLead(s[i - 1]) {
        assert t[i - 1] == s[i];
      }
      forall i | 0 <= i < |s| && IsLead(s[i]) ensures i + 1 < |s| && IsTrail(s[i + 1]) {
        assert t[i - 1] == s[i];
      }
    }
    if WellFormed(s) {
      forall i | 0 <= i < |t| && IsTrail(t[i]) ensures i > 0 && IsLead(t[i - 1]) {
        assert s[i + 1] == t[i];
      }
    }
  }

  /** Dropping a leading surrogate pair keeps well-formedness both ways. */
  lemma WellFormedAfterPair(s: Str)
    requires |s| >= 2 && IsLead(s[0]) && IsTrail(s[1])
    ensures WellFormed(s) <==> WellFormed(s[2..])
  {
    var t := s[2..];
    if WellFormed(t) {
      forall i | 0 <= i < |s| && IsTrail(s[i]) ensures i > 0 && IsLead(s[i - 1]) {
        if i > 1 { assert t[i - 2] == s[i]; }
      }
      forall i | 0 <= i < |s| && IsLead(s[i]) ensures i + 1 < |s| && IsTrail(s[i + 1]) {
        if i > 1 { assert t[i - 2] == s[i]; }
      }
    }
    if WellFormed(s) {
      forall i | 0 <= i < |t| && IsTrail(t[i]) ensures i > 0 && IsLead(t[i - 1]) {
        assert s[i + 2] == t[i];
      }
    }
  }

  /** encodeURIComponent throws exactly on strings with a lone surrogate. */
  lemma {:induction false} EncodeDefinedIffWellFormed(s: Str)
    ensures EncodeURIComponent(s).Some? <==> WellFormed(s)
    decreases |s|
  {
    if s == [] {
    } else if Unreserved(s[0]) {
      EncodeDefinedIffWellFormed(s[1..]);
      WellFormedTail(s);
    } else if IsLead(s[0]) && |s| >= 2 && IsTrail(s[1]) {
      EncodeDefinedIffWellFormed(s[2..]);
      WellFormedAfterPair(s);
    } else if IsLead(s[0]) || IsTrail(s[0]) {
      assert !WellFormed(s);
    } else {
      EncodeDefinedIffWellFormed(s[1..]);
      WellFormedTail(s);
    }
  }

  /** A string of unreserved units is its own encoding. */
  lemma {:induction false} EncodeUnreservedIsIdentity(s: Str)
    requires forall i :: 0 <= i < |s| ==> Unreserved(s[i])
    ensures EncodeURIComponent(s) == Some(s)
    decreases |s|
  {
    if s != [] {
      EncodeUnreservedIsIdentity(s[1..]);
      assert [s[0]] + s[1..] == s;
    }
  }
}
