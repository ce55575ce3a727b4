/** Release versions: internal/enroll/version.go, with the precedence of item 11 of Semantic
    Versioning 2.0.0 on plain triples. */
module Version {
  import opened Machine

  datatype Triple = Triple(major: int, minor: int, patch: int)

  predicate IsDigit(c: char) {
    '0' <= c <= '9'
  }

  predicate AllDigits(s: string) {
    forall i :: 0 <= i < |s| ==> IsDigit(s[i])
  }

  /** The number that a string of digits stands for. */
  function Value(s: string): nat
    requires AllDigits(s)
  {
    if s == "" then 0 else 10 * Value(s[..|s| - 1]) + (s[|s| - 1] as int - '0' as int)
  }

  predicate Signed(s: string) {
    s != "" && (s[0] == '-' || s[0] == '+')
  }

  function Digits(s: string): string {
    if Signed(s) then s[1..] else s
  }

  /** strconv.Atoi on 64 bits: an optional sign, at least one digit, and in range. */
  function Atoi(s: string): Option<Int64> {
    var d := Digits(s);
    if d == "" || !AllDigits(d) then None
    else
      var v: int := Value(d);
      var n := if Signed(s) && s[0] == '-' then -v else v;
      if -TWO_63 <= n < TWO_63 then Some(n) else None
  }

  /** strings.Split(s, "."). */
  function SplitDots(s: string): (parts: seq<string>)
    ensures parts != []
  {
    if s == "" then [""]
    else if s[0] == '.' then [""] + SplitDots(s[1..])
    else
      var rest := SplitDots(s[1..]);
      [[s[0]] + rest[0]] + rest[1..]
  }

  function TrimV(s: string): string {
    if s != "" && s[0] == 'v' then s[1..] else s
  }

  function Part(p: string): Option<nat> {
    match Atoi(p)
    case Some(n) => if n < 0 || p == "" then None else Some(n)
    case None => None
  }

  function Parse(s: string): Option<Triple> {
    var p := SplitDots(TrimV(s));
    if |p| != 3 || Part(p[0]).None? || Part(p[1]).None? || Part(p[2]).None? then None
    else Some(Triple(Part(p[0]).value, Part(p[1]).value, Part(p[2]).value))
  }

  /** parseSemver's loop fills an array. */
  method ParseSemver(s: string) returns (v: array<int>, ok: bool)
    ensures fresh(v) && v.Length == 3
    ensures ok == Parse(s).Some?
    ensures ok ==> Triple(v[0], v[1], v[2]) == Parse(s).value
  {
    v := new int[3](_ => 0);
    var parts := SplitDots(TrimV(s));
    if |parts| != 3 {
      return v, false;
    }
    for i := 0 to 3
      invariant forall k :: 0 <= k < i ==> Part(parts[k]) == Some(v[k])
    {
      var n := Atoi(parts[i]);
      if n.None? || n.value < 0 || parts[i] == "" {
        return v, false;
      }
      v[i] := n.value;
    }
    ok := true;
  }

  /** The order of releases. */
  predicate Higher(a: Triple, b: Triple) {
    || a.major > b.major
    || (a.major == b.major && a.minor > b.minor)
    || (a.major == b.major && a.minor == b.minor && a.patch > b.patch)
  }

  predicate Newer(target: string, current: string) {
    Parse(target).Some? && Parse(current).Some? && Higher(Parse(target).value, Parse(current).value)
  }

  /** isNewerRelease: the first component that differs decides. */
  method IsNewerRelease(target: string, current: string) returns (newer: bool)
    ensures newer == Newer(target, current)
  {
    var t, tOk := ParseSemver(target);
    if !tOk {
      return false;
    }
    var c, cOk := ParseSemver(current);
    if !cOk {
      return false;
    }
    ghost var a, b := Parse(target).value, Parse(current).value;
    assert t[0] == a.major && t[1] == a.minor && t[2] == a.patch;
    assert c[0] == b.major && c[1] == b.minor && c[2] == b.patch;
    for i := 0 to 3
      invariant i > 0 ==> a.major == b.major
      invariant i > 1 ==> a.minor == b.minor
      invariant i > 2 ==> a.patch == b.patch
    {
      if t[i] != c[i] {
        return t[i] > c[i];
      }
    }
    newer := false;
  }

  // ----- The order -----

  /** A strict order that compares any two releases with different numbers. */
  lemma NewerIsStrictOrder(a: string, b: string, c: string)
    ensures !Newer(a, a)
    ensures Newer(a, b) && Newer(b, c) ==> Newer(a, c)
    ensures Newer(a, b) ==> !Newer(b, a)
    ensures Parse(a).Some? && Parse(b).Some? && Parse(a) != Parse(b) ==> Newer(a, b) || Newer(b, a)
  {
  }

  // ----- What is parsed -----

  function Decimal(n: nat): string {
    if n < 10 then [('0' as int + n) as char] else Decimal(n / 10) + [('0' as int + n % 10) as char]
  }

  lemma {:induction false} DecimalValue(n: nat)
    ensures Decimal(n) != "" && AllDigits(Decimal(n)) && Value(Decimal(n)) == n
  {
    var last := ('0' as int + n % 10) as char;
    if n >= 10 {
      DecimalValue(n / 10);
      assert Decimal(n)[..|Decimal(n)| - 1] == Decimal(n / 10);
    } else {
      assert Decimal(n) == [last] && Decimal(n)[..0] == "";
      assert Value("") == 0;
    }
  }

  lemma {:induction false} DecimalPart(n: nat)
    requires n < TWO_63
    ensures Part(Decimal(n)) == Some(n)
  {
    DecimalValue(n);
    assert IsDigit(Decimal(n)[0]);
  }

  lemma {:induction false} SplitAtDot(a: string, t: string)
    requires '.' !in a
    ensures SplitDots(a + "." + t) == [a] + SplitDots(t)
    ensures SplitDots(a) == [a]
  {
    if a == "" {
      assert a + "." + t == "." + t && ("." + t)[1..] == t;
    } else {
      var s := a + "." + t;
      assert s[1..] == a[1..] + "." + t;
      SplitAtDot(a[1..], t);
      assert [a[0]] + a[1..] == a;
    }
  }

  lemma {:induction false} NoDot(n: nat)
    ensures '.' !in Decimal(n)
  {
    DecimalValue(n);
  }

  function Printed(t: Triple, v: bool): string
    requires t.major >= 0 && t.minor >= 0 && t.patch >= 0
  {
    (if v then "v" else "") + (Decimal(t.major) + "." + (Decimal(t.minor) + "." + Decimal(t.patch)))
  }

  predicate Int64Triple(t: Triple) {
    0 <= t.major < TWO_63 && 0 <= t.minor < TWO_63 && 0 <= t.patch < TWO_63
  }

  lemma {:induction false} SplitFront(s: string) returns (rest: string)
    ensures var parts := SplitDots(s);
            && '.' !in parts[0]
            && (|parts| == 1 ==> s == parts[0])
            && (|parts| > 1 ==> s == parts[0] + "." + rest && SplitDots(rest) == parts[1..])
  {
    rest := "";
    if s != "" {
      if s[0] == '.' {
        rest := s[1..];
        assert s == "" + "." + rest;
      } else {
        rest := SplitFront(s[1..]);
        assert s == [s[0]] + s[1..];
      }
    }
  }

  lemma {:induction false} SplitDotsIff(s: string, a: string, b: string, c: string)
    ensures SplitDots(s) == [a, b, c]
            <==> '.' !in a && '.' !in b && '.' !in c && s == a + "." + (b + "." + c)
  {
    if SplitDots(s) == [a, b, c] {
      var bc := SplitFront(s);
      var c' := SplitFront(bc);
      var none := SplitFront(c');
    }
    if '.' !in a && '.' !in b && '.' !in c {
      SplitAtDot(a, b + "." + c);
      SplitAtDot(b, c);
      SplitAtDot(c, "");
    }
  }

  /** Three parts between two dots, with or without a "v" in front. */
  predicate Spells(s: string, a: string, b: string, c: string) {
    var core := a + "." + (b + "." + c);
    '.' !in a && '.' !in b && '.' !in c && (s == core || s == "v" + core)
  }

  lemma {:induction false} ParsedParts(s: string, t: Triple) returns (a: string, b: string, c: string)
    requires Parse(s) == Some(t)
    ensures Spells(s, a, b, c)
    ensures Part(a) == Some(t.major) && Part(b) == Some(t.minor) && Part(c) == Some(t.patch)
  {
    var core := TrimV(s);
    var p := SplitDots(core);
    a, b, c := p[0], p[1], p[2];
    assert p == [a, b, c];
    SplitDotsIff(core, a, b, c);
    assert s == core || s == "v" + core;
  }

  lemma {:induction false} PartsParsed(s: string, a: string, b: string, c: string)
    requires Spells(s, a, b, c) && Part(a).Some? && Part(b).Some? && Part(c).Some?
    ensures Parse(s) == Some(Triple(Part(a).value, Part(b).value, Part(c).value))
  {
    var core := a + "." + (b + "." + c);
    PartStart(a);
    assert ("v" + core)[1..] == core && core[0] == a[0];
    SplitDotsIff(core, a, b, c);
  }

  /** What is parsed at all: an optional "v", then three parts between two dots, each of them
      accepted. Pre-releases, two numbers and four numbers are not. */
  lemma {:induction false} ParsedIff(s: string, t: Triple)
    ensures Parse(s) == Some(t)
            <==> exists a, b, c ::
                   && Spells(s, a, b, c)
                   && Part(a) == Some(t.major) && Part(b) == Some(t.minor) && Part(c) == Some(t.patch)
  {
    hide Parse, Part, Spells;
    if Parse(s) == Some(t) {
      var a, b, c := ParsedParts(s, t);
    }
    forall a, b, c | Spells(s, a, b, c)
                     && Part(a) == Some(t.major) && Part(b) == Some(t.minor) && Part(c) == Some(t.patch)
      ensures Parse(s) == Some(t)
    {
      PartsParsed(s, a, b, c);
    }
  }

  lemma PartStart(p: string)
    requires Part(p).Some?
    ensures p != "" && p[0] != 'v'
  {
    assert !Signed(p) ==> IsDigit(Digits(p)[0]);
  }

  /** Every printed triple of int64 numbers is read back, with or without the "v". */
  lemma {:induction false} ParsePrinted(t: Triple, v: bool)
    requires Int64Triple(t)
    ensures Parse(Printed(t, v)) == Some(t)
  {
    hide Parse, Part;
    DecimalPart(t.major);
    DecimalPart(t.minor);
    DecimalPart(t.patch);
    NoDot(t.major);
    NoDot(t.minor);
    NoDot(t.patch);
    var core := Decimal(t.major) + "." + (Decimal(t.minor) + "." + Decimal(t.patch));
    assert "" + core == core;
    PartsParsed(Printed(t, v), Decimal(t.major), Decimal(t.minor), Decimal(t.patch));
  }

  /** A release is newer exactly when its first number that differs is the greater one, however
      the two are written. */
  lemma {:induction false} PrintedPrecedence(a: Triple, b: Triple, v: bool, w: bool)
    requires Int64Triple(a) && Int64Triple(b)
    ensures Newer(Printed(a, v), Printed(b, w))
            <==> if a.major != b.major then a.major > b.major
                 else if a.minor != b.minor then a.minor > b.minor
                 else a.patch > b.patch
  {
    ParsePrinted(a, v);
    ParsePrinted(b, w);
  }

  /** Which parts are accepted: the source's comment asks for digits only, but Atoi also takes a
      plus sign, and a minus sign in front of zero. */
  lemma PartAcceptedIff(p: string)
    ensures Part(p).Some? <==>
            var d := Digits(p);
            d != "" && AllDigits(d) && Value(d) < TWO_63 && (p != "" && p[0] == '-' ==> Value(d) == 0)
    ensures Part(p).Some? ==> Part(p).value == Value(Digits(p))
  {
  }

  lemma SignsAreAccepted()
    ensures Part("+1") == Some(1) && Part("-0") == Some(0)
  {
    assert "+1"[1..] == "1" && "-0"[1..] == "0";
    assert "1"[..0] == "" && "0"[..0] == "";
    assert Value("1") == 10 * Value("") + 1;
    assert Value("0") == 10 * Value("") + 0;
  }
}
