/**
 * The clean-up `Hi::to` applies to a name before it builds the key:
 * `Strings::fixEncoding`, then `Strings::trim`, then `Strings::lower`.
 */
module Names {

  import opened Bytes

  /** The ASCII bytes `Strings::trim` strips: space, tab, line feed, carriage return, NUL, vertical tab. */
  predicate IsSpace(b: byte)
  {
    b == 32 || b == 9 || b == 10 || b == 13 || b == 0 || b == 11
  }

  predicate AllSpace(s: bytes)
  {
    forall i | 0 <= i < |s| :: IsSpace(s[i])
  }

  lemma AllSpaceConcat(a: bytes, b: bytes)
    requires AllSpace(a) && AllSpace(b)
    ensures AllSpace(a + b)
  {
    assert forall i | |a| <= i < |a + b| :: (a + b)[i] == b[i - |a|];
  }

  /** Neither end of `s` is a space. */
  predicate Trimmed(s: bytes)
  {
    s == [] || (!IsSpace(s[0]) && !IsSpace(s[|s| - 1]))
  }

  /** The first byte at or after `i` that is not a space (or `|s|`). */
  function SpacesFrom(s: bytes, i: nat): (k: nat)
    requires i <= |s|
    ensures i <= k <= |s|
    ensures forall j | i <= j < k :: IsSpace(s[j])
    ensures k < |s| ==> !IsSpace(s[k])
    decreases |s| - i
  {
    if i < |s| && IsSpace(s[i]) then SpacesFrom(s, i + 1) else i
  }

  /** Where the run of spaces that ends just before `j` begins. */
  function SpacesBefore(s: bytes, j: nat): (k: nat)
    requires j <= |s|
    ensures k <= j
    ensures forall i | k <= i < j :: IsSpace(s[i])
    ensures 0 < k ==> !IsSpace(s[k - 1])
  {
    if 0 < j && IsSpace(s[j - 1]) then SpacesBefore(s, j - 1) else j
  }

  /** How many spaces `s` starts with: all bytes before it are spaces, the byte at it is not. */
  function LeadingSpaces(s: bytes): (k: nat)
    ensures k <= |s|
    ensures forall i | 0 <= i < k :: IsSpace(s[i])
    ensures k < |s| ==> !IsSpace(s[k])
  {
    SpacesFrom(s, 0)
  }

  /** Where the trailing spaces of `s` begin: all bytes from it on are spaces, the one before is not. */
  function TrailingFrom(s: bytes): (k: nat)
    ensures k <= |s|
    ensures forall i | k <= i < |s| :: IsSpace(s[i])
    ensures 0 < k ==> !IsSpace(s[k - 1])
  {
    SpacesBefore(s, |s|)
  }

  lemma LeadingSpacesIs(s: bytes, k: nat)
    requires k <= |s| && (forall i | 0 <= i < k :: IsSpace(s[i])) && (k < |s| ==> !IsSpace(s[k]))
    ensures LeadingSpaces(s) == k
  {
  }

  lemma TrailingFromIs(s: bytes, k: nat)
    requires k <= |s| && (forall i | k <= i < |s| :: IsSpace(s[i])) && (0 < k ==> !IsSpace(s[k - 1]))
    ensures TrailingFrom(s) == k
  {
  }

  /** `Strings::trim`: strip the spaces at both ends. */
  function Trim(s: bytes): bytes
  {
    var lo := LeadingSpaces(s);
    var hi := TrailingFrom(s);
    if hi <= lo then [] else s[lo..hi]
  }

  /** A string whose spaces before `lo` and from `hi` on overlap is all spaces. */
  lemma SpacesMeet(s: bytes, lo: nat, hi: nat)
    requires hi <= lo <= |s|
    requires forall i | 0 <= i < lo :: IsSpace(s[i])
    requires forall i | hi <= i < |s| :: IsSpace(s[i])
    ensures AllSpace(s)
  {
    forall i | 0 <= i < |s|
      ensures IsSpace(s[i])
    {
      if lo <= i {
        assert hi <= i;
      }
    }
  }

  /** Cutting `s` at the ends of its leading and trailing spaces. */
  lemma SpacesAround(s: bytes, lo: nat, hi: nat)
    requires lo < hi <= |s|
    requires forall i | 0 <= i < lo :: IsSpace(s[i])
    requires forall i | hi <= i < |s| :: IsSpace(s[i])
    requires !IsSpace(s[lo]) && !IsSpace(s[hi - 1])
    ensures s == s[..lo] + s[lo..hi] + s[hi..]
    ensures AllSpace(s[..lo]) && AllSpace(s[hi..]) && Trimmed(s[lo..hi])
  {
    assert s == s[..lo] + s[lo..hi] + s[hi..];
    assert forall i | 0 <= i < lo :: s[..lo][i] == s[i];
    assert forall i | 0 <= i < |s| - hi :: s[hi..][i] == s[hi + i];
    assert s[lo..hi][0] == s[lo] && s[lo..hi][hi - lo - 1] == s[hi - 1];
  }

  /** `Trim(s)` is `s` cut into leading spaces, a trimmed middle and trailing spaces. */
  lemma TrimSplits(s: bytes) returns (head: bytes, tail: bytes)
    ensures s == head + Trim(s) + tail
    ensures AllSpace(head) && AllSpace(tail) && Trimmed(Trim(s))
  {
    var lo := LeadingSpaces(s);
    var hi := TrailingFrom(s);
    if hi <= lo {
      SpacesMeet(s, lo, hi);
      head, tail := s, [];
      assert Trim(s) == [];
      assert s == head + [] + tail;
    } else {
      SpacesAround(s, lo, hi);
      head, tail := s[..lo], s[hi..];
      assert Trim(s) == s[lo..hi];
    }
  }

  /** Whatever spaces surround a trimmed string, `Trim` gives back exactly that string. */
  lemma TrimOf(head: bytes, r: bytes, tail: bytes)
    requires AllSpace(head) && AllSpace(tail) && Trimmed(r)
    ensures Trim(head + r + tail) == r
  {
    var s := head + r + tail;
    if r == [] {
      LeadingSpacesIs(s, |s|);
    } else {
      LeadingSpacesIs(s, |head|);
      TrailingFromIs(s, |head| + |r|);
      assert s[|head|..|head| + |r|] == r;
    }
  }

  /** A string without surrounding spaces is its own trim. */
  lemma TrimTrimmed(s: bytes)
    requires Trimmed(s)
    ensures Trim(s) == s
  {
    TrimOf([], s, []);
    assert [] + s + [] == s;
  }

  lemma Regroup(head: bytes, s: bytes, tail: bytes, h: bytes, m: bytes, t: bytes)
    requires s == h + m + t
    ensures head + s + tail == (head + h) + m + (t + tail)
  {
  }

  /** Surrounding whitespace never changes the trimmed name. */
  lemma TrimIgnoresPadding(head: bytes, s: bytes, tail: bytes)
    requires AllSpace(head) && AllSpace(tail)
    ensures Trim(head + s + tail) == Trim(s)
  {
    var h, t := TrimSplits(s);
    Regroup(head, s, tail, h, Trim(s), t);
    AllSpaceConcat(head, h);
    AllSpaceConcat(t, tail);
    TrimOf(head + h, Trim(s), t + tail);
  }

  /** ASCII lower case: `A`..`Z` become `a`..`z`, every other byte stays. */
  function LowerByte(b: byte): byte
  {
    if 65 <= b <= 90 then b + 32 else b
  }

  /** `Strings::lower`, byte by byte. */
  function Lower(s: bytes): (r: bytes)
    ensures |r| == |s|
    ensures forall i | 0 <= i < |s| :: r[i] == LowerByte(s[i])
  {
    seq(|s|, i requires 0 <= i < |s| => LowerByte(s[i]))
  }

  lemma LowerByteKeepsSpace(b: byte)
    ensures IsSpace(LowerByte(b)) == IsSpace(b)
  {
  }

  /** Two bytes that are equal, or the upper- and lower-case forms of one ASCII letter. */
  predicate SameByteUpToCase(a: byte, b: byte)
  {
    || a == b
    || (65 <= a <= 90 && b == a + 32)
    || (65 <= b <= 90 && a == b + 32)
  }

  /** Two names that differ only in the case of ASCII letters. */
  predicate SameUpToCase(s: bytes, t: bytes)
  {
    |s| == |t| && forall i | 0 <= i < |s| :: SameByteUpToCase(s[i], t[i])
  }

  /** Two bytes lower alike exactly when they are equal up to the case of a letter. */
  lemma LowerByteEqualIff(a: byte, b: byte)
    ensures LowerByte(a) == LowerByte(b) <==> SameByteUpToCase(a, b)
  {
  }

  /** Names that differ only in case lower alike, and only those do. */
  lemma LowerEqualIff(s: bytes, t: bytes)
    ensures Lower(s) == Lower(t) <==> SameUpToCase(s, t)
  {
    if Lower(s) == Lower(t) {
      assert |s| == |t|;
      forall i | 0 <= i < |s|
        ensures SameByteUpToCase(s[i], t[i])
      {
        assert Lower(s)[i] == Lower(t)[i];
        LowerByteEqualIff(s[i], t[i]);
      }
    }
    if SameUpToCase(s, t) {
      forall i | 0 <= i < |s|
        ensures Lower(s)[i] == Lower(t)[i]
      {
        LowerByteEqualIff(s[i], t[i]);
      }
      assert Lower(s) == Lower(t);
    }
  }

  /** Lowering moves no space, so the leading and trailing runs of spaces stay where they were. */
  lemma LowerKeepsSpaceRuns(s: bytes)
    ensures LeadingSpaces(Lower(s)) == LeadingSpaces(s)
    ensures TrailingFrom(Lower(s)) == TrailingFrom(s)
  {
    var l := Lower(s);
    forall i | 0 <= i < |s|
      ensures IsSpace(l[i]) == IsSpace(s[i])
    {
      LowerByteKeepsSpace(s[i]);
    }
    LeadingSpacesIs(l, LeadingSpaces(s));
    TrailingFromIs(l, TrailingFrom(s));
  }

  lemma LowerSlice(s: bytes, lo: nat, hi: nat)
    requires lo <= hi <= |s|
    ensures Lower(s[lo..hi]) == Lower(s)[lo..hi]
  {
    assert forall i | 0 <= i < hi - lo :: Lower(s[lo..hi])[i] == Lower(s)[lo..hi][i];
  }

  /** Lowering keeps every space where it was and makes no new one, so it commutes with trimming. */
  lemma LowerTrimCommute(s: bytes)
    ensures Lower(Trim(s)) == Trim(Lower(s))
  {
    LowerKeepsSpaceRuns(s);
    var lo, hi := LeadingSpaces(s), TrailingFrom(s);
    if lo < hi {
      LowerSlice(s, lo, hi);
    }
  }

  /**
   * `Strings::fixEncoding` repairs invalid UTF-8; the model takes its input as
   * already valid, so the normal form is `lower(trim(name))`.
   */
  function FixEncoding(s: bytes): bytes
  {
    s
  }

  function Normalize(name: bytes): bytes
  {
    Lower(Trim(FixEncoding(name)))
  }

  /** No byte of `s` is an upper-case ASCII letter. */
  predicate NoUpper(s: bytes)
  {
    forall i | 0 <= i < |s| :: !(65 <= s[i] <= 90)
  }

  lemma LowerKeepsLowercase(s: bytes)
    requires NoUpper(s)
    ensures Lower(s) == s
  {
  }

  lemma TrimIsTrimmed(s: bytes)
    ensures Trimmed(Trim(s))
  {
    var head, tail := TrimSplits(s);
  }

  lemma LowerKeepsTrimmed(s: bytes)
    requires Trimmed(s)
    ensures Trimmed(Lower(s))
  {
    if s != [] {
      LowerByteKeepsSpace(s[0]);
      LowerByteKeepsSpace(s[|s| - 1]);
    }
  }

  lemma LowerHasNoUpper(s: bytes)
    ensures NoUpper(Lower(s))
  {
  }

  /** A normalised name has no surrounding spaces and no upper-case ASCII letter. */
  lemma NormalizeShape(name: bytes)
    ensures Trimmed(Normalize(name)) && NoUpper(Normalize(name))
  {
    TrimIsTrimmed(name);
    LowerKeepsTrimmed(Trim(name));
    LowerHasNoUpper(Trim(name));
  }

  /** Normalising twice is normalising once. */
  lemma NormalizeIdempotent(name: bytes)
    ensures Normalize(Normalize(name)) == Normalize(name)
  {
    var n := Normalize(name);
    NormalizeShape(name);
    TrimTrimmed(n);
    LowerKeepsLowercase(n);
  }

  /**
   * Names that differ only in surrounding whitespace and in letter case share
   * one normal form.
   */
  lemma NormalizeIgnoresPaddingAndCase(s: bytes, head: bytes, t: bytes, tail: bytes)
    requires AllSpace(head) && AllSpace(tail) && SameUpToCase(s, t)
    ensures Normalize(head + t + tail) == Normalize(s)
  {
    TrimIgnoresPadding(head, t, tail);
    LowerTrimCommute(t);
    LowerTrimCommute(s);
    LowerEqualIff(s, t);
  }

  /** ` Alice ` normalises as `alice` does. */
  lemma ExampleNameIsLowered()
    ensures Normalize(Ascii(" Alice ")) == Normalize(Ascii("alice"))
  {
    assert Ascii(" Alice ") == [32] + Ascii("Alice") + [32];
    assert SameUpToCase(Ascii("alice"), Ascii("Alice"));
    NormalizeIgnoresPaddingAndCase(Ascii("alice"), [32], Ascii("Alice"), [32]);
  }

  lemma ExampleNameIsNormal()
    ensures Normalize(Ascii("alice")) == Ascii("alice")
  {
    var alice := Ascii("alice");
    assert alice == [97, 108, 105, 99, 101];
    TrimTrimmed(alice);
    LowerKeepsLowercase(alice);
  }
}
