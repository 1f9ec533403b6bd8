/** URL-safe base64 without padding (sections 5 and 3.2 of RFC 4648), accepted only in canonical form. */
module Base64Url {
  import opened Prelude

  type Byte = b: int | 0 <= b < 256
  type Sextet = v: int | 0 <= v < 64

  // ----- bytes and sextets -----

  function High(a: Byte): Sextet { a / 4 }
  function Upper(a: Byte, b: Byte): Sextet { a % 4 * 16 + b / 16 }
  function Lower(b: Byte, c: Byte): Sextet { b % 16 * 4 + c / 64 }
  function Low(c: Byte): Sextet { c % 64 }

  /** Three bytes make four sextets; one or two left over make two or three. */
  function Split(bytes: seq<Byte>): seq<Sextet> {
    if |bytes| >= 3 then
      [High(bytes[0]), Upper(bytes[0], bytes[1]), Lower(bytes[1], bytes[2]), Low(bytes[2])] + Split(bytes[3..])
    else if |bytes| == 2 then
      [High(bytes[0]), Upper(bytes[0], bytes[1]), Lower(bytes[1], 0)]
    else if |bytes| == 1 then
      [High(bytes[0]), Upper(bytes[0], 0)]
    else
      []
  }

  function FirstByte(u: Sextet, v: Sextet): Byte { u * 4 + v / 16 }
  function SecondByte(v: Sextet, w: Sextet): Byte { v % 16 * 16 + w / 4 }
  function ThirdByte(w: Sextet, x: Sextet): Byte { w % 4 * 64 + x }

  /** Bits beyond the last whole byte are dropped. */
  function Join(v: seq<Sextet>): seq<Byte> {
    if |v| >= 4 then
      [FirstByte(v[0], v[1]), SecondByte(v[1], v[2]), ThirdByte(v[2], v[3])] + Join(v[4..])
    else if |v| == 3 then
      [FirstByte(v[0], v[1]), SecondByte(v[1], v[2])]
    else if |v| == 2 then
      [FirstByte(v[0], v[1])]
    else
      []
  }

  /** A possible length, and no bits set beyond the last byte. */
  predicate Whole(v: seq<Sextet>) {
    && |v| % 4 != 1
    && (|v| % 4 == 2 ==> v[|v| - 1] % 16 == 0)
    && (|v| % 4 == 3 ==> v[|v| - 1] % 4 == 0)
  }

  lemma {:induction false} SplitWhole(bytes: seq<Byte>)
    ensures Whole(Split(bytes))
    decreases |bytes|
  {
    if |bytes| >= 3 {
      SplitWhole(bytes[3..]);
      var v, rest := Split(bytes), Split(bytes[3..]);
      assert |rest| > 0 ==> v[|v| - 1] == rest[|rest| - 1];
    }
  }

  lemma TripleBack(a: Byte, b: Byte, c: Byte)
    ensures FirstByte(High(a), Upper(a, b)) == a
    ensures SecondByte(Upper(a, b), Lower(b, c)) == b
    ensures ThirdByte(Lower(b, c), Low(c)) == c
  {
  }

  lemma JoinFour(u: Sextet, v: Sextet, w: Sextet, x: Sextet, rest: seq<Sextet>)
    ensures Join([u, v, w, x] + rest) == [FirstByte(u, v), SecondByte(v, w), ThirdByte(w, x)] + Join(rest)
  {
    assert ([u, v, w, x] + rest)[4..] == rest;
  }

  lemma SplitFour(a: Byte, b: Byte, c: Byte, rest: seq<Byte>)
    ensures Split([a, b, c] + rest) == [High(a), Upper(a, b), Lower(b, c), Low(c)] + Split(rest)
  {
    assert ([a, b, c] + rest)[3..] == rest;
  }

  lemma FirstBack(a: Byte, b: Byte)
    ensures FirstByte(High(a), Upper(a, b)) == a
  {
  }

  lemma SplitOne(a: Byte)
    ensures Split([a]) == [High(a), Upper(a, 0)]
  {
  }

  lemma JoinTwo(u: Sextet, v: Sextet)
    ensures Join([u, v]) == [FirstByte(u, v)]
  {
  }

  lemma JoinSplitOne(a: Byte)
    ensures Join(Split([a])) == [a]
  {
    SplitOne(a);
    JoinTwo(High(a), Upper(a, 0));
    FirstBack(a, 0);
  }

  lemma JoinSplitTwo(a: Byte, b: Byte)
    ensures Join(Split([a, b])) == [a, b]
  {
    assert Split([a, b]) == [High(a), Upper(a, b), Lower(b, 0)];
    TripleBack(a, b, 0);
  }

  lemma JoinSplitMore(a: Byte, b: Byte, c: Byte, rest: seq<Byte>)
    requires Join(Split(rest)) == rest
    ensures Join(Split([a, b, c] + rest)) == [a, b, c] + rest
  {
    SplitFour(a, b, c, rest);
    JoinFour(High(a), Upper(a, b), Lower(b, c), Low(c), Split(rest));
    TripleBack(a, b, c);
  }

  lemma {:induction false} JoinSplit(bytes: seq<Byte>)
    ensures Join(Split(bytes)) == bytes
    decreases |bytes|
  {
    if |bytes| >= 3 {
      JoinSplit(bytes[3..]);
      JoinSplitMore(bytes[0], bytes[1], bytes[2], bytes[3..]);
      assert bytes == [bytes[0], bytes[1], bytes[2]] + bytes[3..];
    } else if |bytes| == 2 {
      JoinSplitTwo(bytes[0], bytes[1]);
      assert bytes == [bytes[0], bytes[1]];
    } else if |bytes| == 1 {
      JoinSplitOne(bytes[0]);
      assert bytes == [bytes[0]];
    }
  }

  lemma QuadBack(u: Sextet, v: Sextet, w: Sextet, x: Sextet)
    ensures High(FirstByte(u, v)) == u
    ensures Upper(FirstByte(u, v), SecondByte(v, w)) == v
    ensures Lower(SecondByte(v, w), ThirdByte(w, x)) == w
    ensures Low(ThirdByte(w, x)) == x
    ensures v % 16 == 0 ==> Upper(FirstByte(u, v), 0) == v
    ensures w % 4 == 0 ==> Lower(SecondByte(v, w), 0) == w
  {
  }

  lemma SplitJoinLast(u: Sextet, v: Sextet, w: Sextet)
    ensures v % 16 == 0 ==> Split(Join([u, v])) == [u, v]
    ensures w % 4 == 0 ==> Split(Join([u, v, w])) == [u, v, w]
  {
    QuadBack(u, v, w, 0);
  }

  lemma SplitJoinMore(u: Sextet, v: Sextet, w: Sextet, x: Sextet, rest: seq<Sextet>)
    requires Split(Join(rest)) == rest
    ensures Split(Join([u, v, w, x] + rest)) == [u, v, w, x] + rest
  {
    JoinFour(u, v, w, x, rest);
    SplitFour(FirstByte(u, v), SecondByte(v, w), ThirdByte(w, x), Join(rest));
    QuadBack(u, v, w, x);
  }

  lemma {:induction false} SplitJoin(v: seq<Sextet>)
    requires Whole(v)
    ensures Split(Join(v)) == v
    decreases |v|
  {
    if |v| >= 4 {
      WholeRest(v);
      SplitJoin(v[4..]);
      SplitJoinMore(v[0], v[1], v[2], v[3], v[4..]);
      assert v == [v[0], v[1], v[2], v[3]] + v[4..];
    } else if |v| == 3 {
      SplitJoinLast(v[0], v[1], v[2]);
      assert v == [v[0], v[1], v[2]];
    } else if |v| == 2 {
      SplitJoinLast(v[0], v[1], 0);
      assert v == [v[0], v[1]];
    }
  }

  lemma WholeRest(v: seq<Sextet>)
    requires Whole(v) && |v| >= 4
    ensures Whole(v[4..])
  {
    assert |v| > 4 ==> v[4..][|v| - 5] == v[|v| - 1];
  }

  // ----- sextets and letters -----

  function Letter(v: Sextet): char {
    if v < 26 then 'A' + v as char
    else if v < 52 then 'a' + (v - 26) as char
    else if v < 62 then '0' + (v - 52) as char
    else if v == 62 then '-'
    else '_'
  }

  /** The decoder underneath takes the standard alphabet as well as the URL-safe one. */
  function Lenient(c: char): Option<Sextet> {
    if 'A' <= c <= 'Z' then Some((c - 'A') as int)
    else if 'a' <= c <= 'z' then Some((c - 'a') as int + 26)
    else if '0' <= c <= '9' then Some((c - '0') as int + 52)
    else if c == '-' || c == '+' then Some(62)
    else if c == '_' || c == '/' then Some(63)
    else None
  }

  predicate UrlLetter(c: char) {
    Lenient(c).Some? && c != '+' && c != '/'
  }

  function Letters(v: seq<Sextet>): string {
    seq(|v|, i requires 0 <= i < |v| => Letter(v[i]))
  }

  function Sextets(text: string): Option<seq<Sextet>> {
    if text == "" then
      Some([])
    else
      var first, rest := Lenient(text[0]), Sextets(text[1..]);
      if first.None? || rest.None? then None else Some([first.value] + rest.value)
  }

  lemma LetterRoundTrip()
    ensures forall v: Sextet :: UrlLetter(Letter(v)) && Lenient(Letter(v)) == Some(v)
    ensures forall c: char :: UrlLetter(c) ==> Letter(Lenient(c).value) == c
  {
  }

  lemma {:induction false} SextetsOfLetters(v: seq<Sextet>)
    ensures Sextets(Letters(v)) == Some(v)
  {
    LetterRoundTrip();
    if v != [] {
      SextetsOfLetters(v[1..]);
      assert Letters(v)[1..] == Letters(v[1..]);
      assert v == [v[0]] + v[1..];
    }
  }

  lemma {:induction false} LettersOfSextets(text: string)
    requires forall i :: 0 <= i < |text| ==> UrlLetter(text[i])
    ensures Sextets(text).Some? && Letters(Sextets(text).value) == text
    ensures forall i :: 0 <= i < |text| ==> Lenient(text[i]) == Some(Sextets(text).value[i])
  {
    if text != "" {
      var rest := text[1..];
      LettersOfSextets(rest);
      LetterRoundTrip();
      LettersCons(Lenient(text[0]).value, Sextets(rest).value);
      assert text == [text[0]] + rest;
    }
  }

  lemma LettersCons(first: Sextet, rest: seq<Sextet>)
    ensures Letters([first] + rest) == [Letter(first)] + Letters(rest)
  {
  }

  // ----- the codec -----

  function Encode(bytes: seq<Byte>): string {
    Letters(Split(bytes))
  }

  function Padding(n: nat): string {
    if n % 4 == 1 then "===" else if n % 4 == 2 then "==" else if n % 4 == 3 then "=" else ""
  }

  /** Up to two padding characters may end the text. */
  function StripPadding(text: string): string {
    if |text| >= 2 && text[|text| - 2..] == "==" then text[..|text| - 2]
    else if |text| >= 1 && text[|text| - 1] == '=' then text[..|text| - 1]
    else text
  }

  datatype Decoded = Ok(bytes: seq<Byte>) | Malformed | Noncanonical

  function Decode(text: string): Decoded {
    var v := Sextets(StripPadding(text + Padding(|text|)));
    if v.None? then
      Malformed
    else if Encode(Join(v.value)) != text then
      Noncanonical
    else
      Ok(Join(v.value))
  }

  /** Only letters of the URL-safe alphabet, a possible length, and no bits set beyond the last byte. */
  predicate Canonical(text: string) {
    && (forall i :: 0 <= i < |text| ==> UrlLetter(text[i]))
    && |text| % 4 != 1
    && (|text| % 4 == 2 ==> Lenient(text[|text| - 1]).value % 16 == 0)
    && (|text| % 4 == 3 ==> Lenient(text[|text| - 1]).value % 4 == 0)
  }

  /** Padding that was added is taken off again. */
  lemma PaddingStripped(text: string)
    requires |text| % 4 != 1
    requires forall i :: 0 <= i < |text| ==> text[i] != '='
    ensures StripPadding(text + Padding(|text|)) == text
  {
    var padded := text + Padding(|text|);
    if |text| % 4 == 3 {
      assert padded[|padded| - 2..][0] == text[|text| - 1];
    } else if |text| % 4 == 2 {
      assert padded[|padded| - 2..] == "==";
    } else if text != "" {
      assert padded == text && padded[|padded| - 2..][1] == text[|text| - 1];
    }
  }

  lemma EncodeCanonical(bytes: seq<Byte>)
    ensures Canonical(Encode(bytes))
  {
    LetterRoundTrip();
    SplitWhole(bytes);
  }

  lemma DecodeCanonical(text: string)
    requires Canonical(text)
    ensures Decode(text).Ok? && Sextets(text).Some? && Decode(text).bytes == Join(Sextets(text).value)
  {
    PaddingStripped(text);
    LettersOfSextets(text);
    SplitJoin(Sextets(text).value);
  }

  // ----- main results -----

  lemma DecodeEncode(bytes: seq<Byte>)
    ensures Decode(Encode(bytes)) == Ok(bytes)
  {
    EncodeCanonical(bytes);
    DecodeCanonical(Encode(bytes));
    SextetsOfLetters(Split(bytes));
    JoinSplit(bytes);
  }

  /** A text is accepted exactly in its canonical form, and then it is the encoding of what it decodes to. */
  lemma DecodeAcceptsIff(text: string)
    ensures Decode(text).Ok? <==> Canonical(text)
    ensures Decode(text).Ok? ==> text == Encode(Decode(text).bytes)
  {
    if Canonical(text) {
      DecodeCanonical(text);
    }
    if Decode(text).Ok? {
      EncodeCanonical(Decode(text).bytes);
    }
  }
}
