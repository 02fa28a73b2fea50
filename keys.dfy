/**
 * The cache key of `Hi::to`: the request URL, assembled from the normalised
 * name, the client's type hint and the requested gender, in that order.
 */
module Keys {

  import opened Wrappers
  import opened Bytes
  import opened FormEncoding
  import opened Names

  const API_URL: bytes := Ascii("http://hi.ondraplsek.cz")
  const NAME_PARAM: bytes := Ascii("?name=")
  const TYPE_PARAM: bytes := Ascii("&type=")
  const GENDER_PARAM: bytes := Ascii("&gender=")

  const TYPE_NAME: bytes := Ascii("name")
  const TYPE_SURNAME: bytes := Ascii("surname")
  const GENDER_MALE: bytes := Ascii("male")
  const GENDER_FEMALE: bytes := Ascii("female")

  /** The URL for an already normalised name. */
  function Key(name: bytes, nameType: Option<bytes>, gender: Option<bytes>): bytes
  {
    API_URL + NAME_PARAM + UrlEncode(name) + TypePart(nameType) + GenderPart(gender)
  }

  /** `&type=<type>` when the client has a type hint, else nothing. */
  function TypePart(nameType: Option<bytes>): bytes
  {
    if nameType.Some? then TYPE_PARAM + UrlEncode(nameType.value) else []
  }

  /** `&gender=<gender>` when a gender is asked for, else nothing. */
  function GenderPart(gender: Option<bytes>): bytes
  {
    if gender.Some? then GENDER_PARAM + UrlEncode(gender.value) else []
  }

  /** The URL `Hi::to` looks up for a name as the caller gave it. */
  function UrlFor(name: bytes, nameType: Option<bytes>, gender: Option<bytes>): bytes
  {
    Key(Normalize(name), nameType, gender)
  }

  /** The three things a key is made from. */
  datatype Query = Query(name: bytes, nameType: Option<bytes>, gender: Option<bytes>)

  /** Position of the first `&` in `s`, or `|s|` when there is none. */
  function IndexOfAmpersand(s: bytes): (i: nat)
    ensures i <= |s| && NoAmpersand(s[..i])
    ensures i < |s| ==> s[i] == AMPERSAND
  {
    if s == [] || s[0] == AMPERSAND then 0 else 1 + IndexOfAmpersand(s[1..])
  }

  lemma IndexOfAmpersandAt(e: bytes, rest: bytes)
    requires NoAmpersand(e) && (rest == [] || rest[0] == AMPERSAND)
    ensures IndexOfAmpersand(e + rest) == |e|
  {
    var i := IndexOfAmpersand(e + rest);
    assert (e + rest)[..|e|] == e;
  }

  /** Reads the optional `&type=` and `&gender=` parameters, in that order. */
  function ParseOptions(s: bytes): Option<(Option<bytes>, Option<bytes>)>
  {
    if s == [] then Some((None, None))
    else if StartsWith(s, GENDER_PARAM) then Some((None, Some(UrlDecode(s[|GENDER_PARAM|..]))))
    else if StartsWith(s, TYPE_PARAM) then
      var rest := s[|TYPE_PARAM|..];
      var i := IndexOfAmpersand(rest);
      var tail := rest[i..];
      if tail == [] then Some((Some(UrlDecode(rest)), None))
      else if StartsWith(tail, GENDER_PARAM) then
        Some((Some(UrlDecode(rest[..i])), Some(UrlDecode(tail[|GENDER_PARAM|..]))))
      else None
    else None
  }

  /** Reads a key back into the query it was built from. */
  function ParseKey(url: bytes): Option<Query>
  {
    var head := API_URL + NAME_PARAM;
    if !StartsWith(url, head) then None
    else
      var rest := url[|head|..];
      var i := IndexOfAmpersand(rest);
      match ParseOptions(rest[i..])
      case None => None
      case Some((nameType, gender)) => Some(Query(UrlDecode(rest[..i]), nameType, gender))
  }

  lemma StartsWithConcat(p: bytes, x: bytes)
    ensures StartsWith(p + x, p) && (p + x)[|p|..] == x
  {
    assert (p + x)[..|p|] == p;
  }

  /** A `&type=` parameter is never mistaken for `&gender=`. */
  lemma ParamsDiffer(s: bytes)
    requires StartsWith(s, TYPE_PARAM)
    ensures !StartsWith(s, GENDER_PARAM)
  {
    assert s[1] == TYPE_PARAM[1];
  }

  lemma ParseGenderPart(gender: Option<bytes>)
    ensures ParseOptions(GenderPart(gender)) == Some((None, gender))
  {
    if gender.Some? {
      StartsWithConcat(GENDER_PARAM, UrlEncode(gender.value));
      DecodeEncode(gender.value);
    }
  }

  lemma ParseTypeAndGender(nameType: bytes, gender: Option<bytes>)
    ensures ParseOptions(TYPE_PARAM + UrlEncode(nameType) + GenderPart(gender))
            == Some((Some(nameType), gender))
  {
    var e := UrlEncode(nameType);
    var g := GenderPart(gender);
    var s := TYPE_PARAM + e + g;
    assert s == TYPE_PARAM + (e + g);
    StartsWithConcat(TYPE_PARAM, e + g);
    ParamsDiffer(s);
    var rest := s[|TYPE_PARAM|..];
    EncodedHasNoAmpersand(nameType);
    IndexOfAmpersandAt(e, g);
    assert rest[..|e|] == e && rest[|e|..] == g;
    DecodeEncode(nameType);
    if gender.Some? {
      StartsWithConcat(GENDER_PARAM, UrlEncode(gender.value));
      DecodeEncode(gender.value);
    } else {
      assert rest == e;
    }
  }

  /** The optional parameters read back into the type hint and the gender they encode. */
  lemma ParseOptionsOf(nameType: Option<bytes>, gender: Option<bytes>)
    ensures ParseOptions(TypePart(nameType) + GenderPart(gender)) == Some((nameType, gender))
  {
    if nameType.Some? {
      ParseTypeAndGender(nameType.value, gender);
    } else {
      assert [] + GenderPart(gender) == GenderPart(gender);
      ParseGenderPart(gender);
    }
  }

  /** The optional parameters, when there are any, begin with the separator `&`. */
  lemma OptionsStartWithAmpersand(nameType: Option<bytes>, gender: Option<bytes>)
    ensures var opts := TypePart(nameType) + GenderPart(gender);
            opts == [] || opts[0] == AMPERSAND
  {
    if nameType.Some? {
      assert (TypePart(nameType) + GenderPart(gender))[0] == TYPE_PARAM[0];
    } else if gender.Some? {
      assert (TypePart(nameType) + GenderPart(gender))[0] == GENDER_PARAM[0];
    }
  }

  /** A URL made of the service address, the encoded name and parameters starting with `&`. */
  lemma ParseKeyOfParts(e: bytes, opts: bytes)
    requires NoAmpersand(e) && (opts == [] || opts[0] == AMPERSAND)
    ensures ParseKey(API_URL + NAME_PARAM + e + opts) ==
            match ParseOptions(opts)
            case None => None
            case Some((nameType, gender)) => Some(Query(UrlDecode(e), nameType, gender))
  {
    var head := API_URL + NAME_PARAM;
    var url := head + e + opts;
    assert url == head + (e + opts);
    StartsWithConcat(head, e + opts);
    IndexOfAmpersandAt(e, opts);
    var rest := url[|head|..];
    assert rest[..|e|] == e && rest[|e|..] == opts;
  }

  /** Every key reads back into exactly the name, type and gender it was built from. */
  lemma ParseKeyOfKey(name: bytes, nameType: Option<bytes>, gender: Option<bytes>)
    ensures ParseKey(Key(name, nameType, gender)) == Some(Query(name, nameType, gender))
  {
    var e := UrlEncode(name);
    var opts := TypePart(nameType) + GenderPart(gender);
    assert Key(name, nameType, gender) == API_URL + NAME_PARAM + e + opts;
    EncodedHasNoAmpersand(name);
    OptionsStartWithAmpersand(nameType, gender);
    ParseKeyOfParts(e, opts);
    ParseOptionsOf(nameType, gender);
    DecodeEncode(name);
  }

  /** No two different queries share a key. */
  lemma KeyInjective(a: Query, b: Query)
    ensures Key(a.name, a.nameType, a.gender) == Key(b.name, b.nameType, b.gender) ==> a == b
  {
    ParseKeyOfKey(a.name, a.nameType, a.gender);
    ParseKeyOfKey(b.name, b.nameType, b.gender);
  }

  /**
   * The URL always begins with the service address and the encoded normal
   * form of the name, and it is the same for every spelling of the name that
   * differs only in surrounding whitespace or letter case.
   */
  lemma UrlForShape(s: bytes, head: bytes, t: bytes, tail: bytes, nameType: Option<bytes>, gender: Option<bytes>)
    requires AllSpace(head) && AllSpace(tail) && SameUpToCase(s, t)
    ensures StartsWith(UrlFor(s, nameType, gender), API_URL + NAME_PARAM + UrlEncode(Normalize(s)))
    ensures UrlFor(head + t + tail, nameType, gender) == UrlFor(s, nameType, gender)
  {
    NormalizeIgnoresPaddingAndCase(s, head, t, tail);
  }

  lemma {:induction false} EncodeUnreserved(s: bytes)
    requires forall i | 0 <= i < |s| :: IsUnreserved(s[i])
    ensures UrlEncode(s) == s
  {
    if s != [] {
      EncodeUnreserved(s[1..]);
    }
  }

  lemma ExampleUrlText()
    ensures API_URL + NAME_PARAM + Ascii("alice") + TYPE_PARAM + TYPE_NAME + GENDER_PARAM + GENDER_FEMALE
            == Ascii("http://hi.ondraplsek.cz?name=alice&type=name&gender=female")
  {
    var a, b, c, d, e, f, g := "http://hi.ondraplsek.cz", "?name=", "alice", "&type=", "name", "&gender=", "female";
    assert a + b + c + d + e + f + g == "http://hi.ondraplsek.cz?name=alice&type=name&gender=female";
    AsciiConcat(a + b + c + d + e + f, g);
    AsciiConcat(a + b + c + d + e, f);
    AsciiConcat(a + b + c + d, e);
    AsciiConcat(a + b + c, d);
    AsciiConcat(a + b, c);
    AsciiConcat(a, b);
  }

  lemma TypeNameBytes()
    ensures TYPE_NAME == [110, 97, 109, 101]
  {
  }

  lemma GenderFemaleBytes()
    ensures GENDER_FEMALE == [102, 101, 109, 97, 108, 101]
  {
  }

  /** A key for values that `urlencode` leaves alone is their plain concatenation. */
  lemma KeyOfPlain(name: bytes, nameType: bytes, gender: bytes)
    requires UrlEncode(name) == name && UrlEncode(nameType) == nameType && UrlEncode(gender) == gender
    ensures Key(name, Some(nameType), Some(gender))
            == API_URL + NAME_PARAM + name + TYPE_PARAM + nameType + GENDER_PARAM + gender
  {
  }

  /** `alice`, `name` and `female` are made of unreserved bytes only, so `urlencode` keeps them. */
  lemma ExamplePartsPlain()
    ensures UrlEncode(Ascii("alice")) == Ascii("alice")
    ensures UrlEncode(TYPE_NAME) == TYPE_NAME
    ensures UrlEncode(GENDER_FEMALE) == GENDER_FEMALE
  {
    assert UrlEncode(Ascii("alice")) == Ascii("alice") by {
      var alice: bytes := [97, 108, 105, 99, 101];
      assert Ascii("alice") == alice;
      EncodeUnreserved(alice);
    }
    assert UrlEncode(TYPE_NAME) == TYPE_NAME by {
      TypeNameBytes();
      EncodeUnreserved(TYPE_NAME);
    }
    assert UrlEncode(GENDER_FEMALE) == GENDER_FEMALE by {
      GenderFemaleBytes();
      EncodeUnreserved(GENDER_FEMALE);
    }
  }

  /** With the type hint `name`, a female lookup of ` Alice ` asks for exactly this URL. */
  lemma ExampleUrl()
    ensures UrlFor(Ascii(" Alice "), Some(TYPE_NAME), Some(GENDER_FEMALE))
            == Ascii("http://hi.ondraplsek.cz?name=alice&type=name&gender=female")
  {
    ExampleNameIsLowered();
    ExampleNameIsNormal();
    ExamplePartsPlain();
    KeyOfPlain(Ascii("alice"), TYPE_NAME, GENDER_FEMALE);
    ExampleUrlText();
  }
}
