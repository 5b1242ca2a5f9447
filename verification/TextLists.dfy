/**
 The comma-separated lists the web server stores in its tables: integers in
 web/server/pipeline_task.py and web/server/event.py, times in
 web/server/event.py. Strings are Python strings of ASCII characters.
 */
module TextLists {
  import opened Basics

  // ------------------------------------------------------------- str and int

  function Digits(n: nat): (s: string)
    ensures |s| > 0 && forall c :: c in s ==> '0' <= c <= '9'
  {
    if n < 10 then [Digit(n)] else Digits(n / 10) + [Digit(n % 10)]
  }

  /** str(v). */
  function Str(v: int): string {
    if v < 0 then "-" + Digits(-v) else Digits(v)
  }

  predicate IsSpace(c: char) {
    c == ' ' || '\t' <= c <= '\r' || '\U{1c}' <= c <= '\U{1f}'
  }

  function StripLeft(s: string): string {
    if s != [] && IsSpace(s[0]) then StripLeft(s[1..]) else s
  }

  function StripRight(s: string): string {
    if s != [] && IsSpace(s[|s| - 1]) then StripRight(s[..|s| - 1]) else s
  }

  function DigitValue(c: char): Option<nat> {
    if '0' <= c <= '9' then Some(c as int - '0' as int) else None
  }

  /** Decimal digits, with single underscores allowed between them. */
  function Numeral(s: string): Option<nat> {
    if s == [] || DigitValue(s[|s| - 1]) == None then None
    else
      var d := DigitValue(s[|s| - 1]).value;
      var rest := s[..|s| - 1];
      if rest == [] then Some(d)
      else
        var hi := Numeral(if rest[|rest| - 1] == '_' then rest[..|rest| - 1] else rest);
        if hi == None then None else Some(10 * hi.value + d)
  }

  /** int(s); None is ValueError. */
  function Int(s: string): Option<int> {
    var t := StripRight(StripLeft(s));
    if t == [] then None
    else if t[0] == '-' then Signed(true, Numeral(t[1..]))
    else Signed(false, Numeral(if t[0] == '+' then t[1..] else t))
  }

  function Signed(minus: bool, n: Option<nat>): Option<int> {
    if n == None then None else (var v: int := n.value; Some(if minus then -v else v))
  }

  lemma {:induction false} NumeralOfDigits(n: nat)
    ensures Numeral(Digits(n)) == Some(n)
  {
    if n < 10 {
      NumeralOfDigit(n);
    } else {
      NumeralOfDigits(n / 10);
      NumeralSnoc(Digits(n / 10), n % 10);
    }
  }

  lemma NumeralOfDigit(d: nat)
    requires d < 10
    ensures DigitValue(Digit(d)) == Some(d) && Digit(d) != '_' && Numeral([Digit(d)]) == Some(d)
  {
  }

  lemma NumeralSnoc(s: string, d: nat)
    requires s != [] && (forall c :: c in s ==> '0' <= c <= '9') && Numeral(s).Some? && d < 10
    ensures Numeral(s + [Digit(d)]) == Some(10 * Numeral(s).value + d)
  {
    NumeralOfDigit(d);
    var t := s + [Digit(d)];
    assert t[|t| - 1] == Digit(d) && t[..|t| - 1] == s;
    assert s[|s| - 1] in s;
  }

  lemma NothingToStrip(s: string)
    requires s != [] && !IsSpace(s[0]) && !IsSpace(s[|s| - 1])
    ensures StripRight(StripLeft(s)) == s
  {
  }

  predicate AllDigits(s: string) {
    s != [] && forall c :: c in s ==> '0' <= c <= '9'
  }

  lemma IntOfPlain(ds: string, n: nat)
    requires AllDigits(ds) && Numeral(ds) == Some(n)
    ensures Int(ds) == Some(n)
  {
    assert ds[0] in ds && ds[|ds| - 1] in ds;
    NothingToStrip(ds);
  }

  lemma IntOfMinus(ds: string, n: nat, v: int)
    requires AllDigits(ds) && Numeral(ds) == Some(n) && v + n == 0
    ensures Int("-" + ds) == Some(v)
  {
    var s := "-" + ds;
    assert ds[|ds| - 1] in ds;
    assert s[0] == '-' && s[1..] == ds && s[|s| - 1] == ds[|ds| - 1];
    NothingToStrip(s);
  }

  lemma IntOfStr(v: int)
    ensures Int(Str(v)) == Some(v)
  {
    if v < 0 {
      NumeralOfDigits(-v);
      IntOfMinus(Digits(-v), -v, v);
    } else {
      NumeralOfDigits(v);
      IntOfPlain(Digits(v), v);
    }
  }

  // ---------------------------------------------------------- join and split

  predicate CommaFree(parts: seq<string>) {
    forall i :: 0 <= i < |parts| ==> ',' !in parts[i]
  }

  predicate AllFull(parts: seq<string>) {
    forall i :: 0 <= i < |parts| ==> parts[i] != []
  }

  /** ','.join(parts). */
  function Join(parts: seq<string>): string {
    if parts == [] then ""
    else if |parts| == 1 then parts[0]
    else parts[0] + "," + Join(parts[1..])
  }

  /** s.split(','): never empty, and "" gives one empty part. */
  function Split(s: string): (parts: seq<string>)
    ensures |parts| > 0 && CommaFree(parts)
  {
    if s == [] then [""]
    else
      var parts := Split(s[1..]);
      if s[0] == ',' then [""] + parts else [[s[0]] + parts[0]] + parts[1..]
  }

  /** [v for v in parts if len(v)]. */
  function NonEmpty(parts: seq<string>): (r: seq<string>)
    ensures AllFull(r)
    ensures CommaFree(parts) ==> CommaFree(r)
  {
    if |parts| == 0 then []
    else if parts[0] == [] then NonEmpty(parts[1..])
    else [parts[0]] + NonEmpty(parts[1..])
  }

  lemma {:induction false} SplitAtComma(a: string, rest: string)
    requires ',' !in a
    ensures Split(a) == [a]
    ensures Split(a + "," + rest) == [a] + Split(rest)
  {
    if a == "" {
      assert a + "," + rest == "," + rest;
      assert ("," + rest)[1..] == rest;
    } else {
      SplitAtComma(a[1..], rest);
      assert (a + "," + rest)[1..] == a[1..] + "," + rest;
      assert [a[0]] + a[1..] == a;
    }
  }

  lemma {:induction false} SplitOfJoin(parts: seq<string>)
    requires |parts| > 0 && CommaFree(parts)
    ensures Split(Join(parts)) == parts
  {
    if |parts| == 1 {
      SplitAtComma(parts[0], "");
    } else {
      SplitOfJoin(parts[1..]);
      SplitAtComma(parts[0], Join(parts[1..]));
      assert parts == [parts[0]] + parts[1..];
    }
  }

  lemma {:induction false} NonEmptyKeepsAll(parts: seq<string>)
    requires AllFull(parts)
    ensures NonEmpty(parts) == parts
  {
    if |parts| > 0 { NonEmptyKeepsAll(parts[1..]); }
  }

  // ------------------------------------------------------- lists of integers

  function Strs(vs: seq<int>): (parts: seq<string>)
    ensures |parts| == |vs| && AllFull(parts) && CommaFree(parts)
  {
    if |vs| == 0 then [] else [Str(vs[0])] + Strs(vs[1..])
  }

  function Ints(parts: seq<string>): Option<seq<int>> {
    if |parts| == 0 then Some([])
    else
      var first, rest := Int(parts[0]), Ints(parts[1..]);
      if first == None || rest == None then None else Some([first.value] + rest.value)
  }

  /** ','.join([str(v) for v in vs]). */
  function PrintInts(vs: seq<int>): string { Join(Strs(vs)) }

  /** [int(v) for v in s.split(',') if len(v)]; None when some int fails. */
  function ParseInts(s: string): Option<seq<int>> { Ints(NonEmpty(Split(s))) }

  lemma {:induction false} IntsOfStrs(vs: seq<int>)
    ensures Ints(Strs(vs)) == Some(vs)
  {
    if |vs| > 0 {
      IntsOfStrs(vs[1..]);
      IntOfStr(vs[0]);
      assert Strs(vs)[1..] == Strs(vs[1..]);
      assert vs == [vs[0]] + vs[1..];
    }
  }

  /** ROUND TRIP. Every list of integers comes back as it was, the empty one and
      negative entries included. */
  lemma IntsRoundTrip(vs: seq<int>)
    ensures ParseInts(PrintInts(vs)) == Some(vs)
  {
    IntsOfStrs(vs);
    if |vs| > 0 {
      SplitOfJoin(Strs(vs));
      NonEmptyKeepsAll(Strs(vs));
    }
  }

  /** Some part that is not empty is no integer. */
  ghost predicate HasBadPart(s: string) {
    exists part :: part in Split(s) && part != [] && Int(part) == None
  }

  lemma BadPartIff(s: string)
    ensures ParseInts(s) == None <==> HasBadPart(s)
  {
    BadPartsIff(Split(s));
  }

  lemma {:induction false} BadPartsIff(parts: seq<string>)
    ensures Ints(NonEmpty(parts)) == None <==> exists part :: part in parts && part != [] && Int(part) == None
  {
    if |parts| > 0 {
      var rest := NonEmpty(parts[1..]);
      BadPartsIff(parts[1..]);
      assert parts == [parts[0]] + parts[1..];
      if parts[0] != [] { assert ([parts[0]] + rest)[1..] == rest; }
    }
  }

  predicate IntChar(c: char) {
    '0' <= c <= '9' || c == '+' || c == '-' || c == '_' || IsSpace(c)
  }

  /** Whatever holds any other character is no integer. */
  lemma {:induction false} StrangeCharIsNoInt(s: string, c: char)
    requires c in s && !IntChar(c)
    ensures Int(s) == None
  {
    StripLeftKeeps(s, c);
    StripRightKeeps(StripLeft(s), c);
    var t := StripRight(StripLeft(s));
    assert t == [t[0]] + t[1..];
    if t[0] == '-' || t[0] == '+' {
      NumeralChars(t[1..], c);
    } else {
      NumeralChars(t, c);
    }
  }

  lemma {:induction false} StripLeftKeeps(s: string, c: char)
    requires c in s && !IsSpace(c)
    ensures c in StripLeft(s)
  {
    if IsSpace(s[0]) {
      assert s == [s[0]] + s[1..];
      StripLeftKeeps(s[1..], c);
    }
  }

  lemma {:induction false} StripRightKeeps(s: string, c: char)
    requires c in s && !IsSpace(c)
    ensures c in StripRight(s)
  {
    var n := |s| - 1;
    if IsSpace(s[n]) {
      assert s == s[..n] + [s[n]];
      StripRightKeeps(s[..n], c);
    }
  }

  lemma {:induction false} NumeralChars(s: string, c: char)
    requires c in s && !('0' <= c <= '9') && c != '_'
    ensures Numeral(s) == None
  {
    var n := |s| - 1;
    assert s == s[..n] + [s[n]];
    if '0' <= s[n] <= '9' {
      var rest := s[..n];
      assert rest == rest[..|rest| - 1] + [rest[|rest| - 1]];
      NumeralChars(if rest[|rest| - 1] == '_' then rest[..|rest| - 1] else rest, c);
    }
  }

  /** Numerals are decimal, and lists are split at commas. */
  lemma PrintExample()
    ensures Str(-205) == "-205"
  {
    assert Digits(205) == Digits(20) + ['5'] && Digits(20) == Digits(2) + ['0'];
    assert Digits(205) == "205";
  }

  lemma ReadSpacedExample()
    ensures Int(" +17 ") == Some(17)
  {
    assert " +17 "[1..] == "+17 " && "+17 "[..3] == "+17" && "+17"[1..] == "17" && "17"[..1] == "1";
    assert StripLeft("+17 ") == "+17 " && StripLeft(" +17 ") == "+17 ";
    assert StripRight("+17") == "+17" && StripRight("+17 ") == "+17";
    assert Numeral("1") == Some(1) && Numeral("17") == Some(17);
  }

  lemma ReadUnderscoreExamples()
    ensures Numeral("1_0") == Some(10) && Numeral("1__0") == None
  {
    assert "1_0"[..2] == "1_" && "1_"[..1] == "1" && "1__0"[..3] == "1__" && "1__"[..2] == "1_";
    assert Numeral("1") == Some(1) && Numeral("1_") == None;
  }

  lemma SplitExample()
    ensures Split("3,,-12") == ["3", "", "-12"]
  {
    SplitAtComma("3", ",-12");
    SplitAtComma("", "-12");
    SplitAtComma("-12", "");
    assert "3" + "," + ",-12" == "3,,-12" && "" + "," + "-12" == ",-12";
  }

  // ---------------------------------------------------------- lists of times

  /** ','.join([v for v in ts if len(v)]). */
  function PrintTimes(ts: seq<string>): string { Join(NonEmpty(ts)) }

  function ParseTimes(s: string): seq<string> { NonEmpty(Split(s)) }

  /** ROUND TRIP, exactly: the non-empty entries come back in order if and only if
      none of them holds a comma. */
  lemma TimesRoundTripIff(ts: seq<string>)
    ensures ParseTimes(PrintTimes(ts)) == NonEmpty(ts) <==> CommaFree(ts)
  {
    NonEmptyHas(ts);
    if CommaFree(ts) && |NonEmpty(ts)| > 0 {
      SplitOfJoin(NonEmpty(ts));
      NonEmptyKeepsAll(NonEmpty(ts));
    }
  }

  lemma {:induction false} NonEmptyHas(parts: seq<string>)
    ensures CommaFree(NonEmpty(parts)) ==> CommaFree(parts)
  {
    if |parts| > 0 {
      var r := NonEmpty(parts[1..]);
      NonEmptyHas(parts[1..]);
      if parts[0] != [] { assert NonEmpty(parts)[0] == parts[0] && NonEmpty(parts)[1..] == r; }
      assert parts == [parts[0]] + parts[1..];
    }
  }
}
