/**
  IPv6 addresses as text (ip_addr.h), with the forms of section 2.2 of RFC 4291
  that have no embedded IPv4 address.
*/
module Ip6Text {
  import opened Wrappers
  import opened Numerals
  import opened Octets
  import opened IpText

  predicate Groups(a: seq<int>) {
    forall i :: 0 <= i < |a| ==> 0 <= a[i] < 0x1_0000
  }

  /** A group without leading zeros. */
  function Hex(g: nat): (t: string)
    ensures |t| >= 1
  {
    if g < 16 then [Digit(g)] else Hex(g / 16) + [Digit(g % 16)]
  }

  /** Groups with colons between them. */
  function Joined(a: seq<int>): string
    requires |a| > 0 && Groups(a)
  {
    var n := |a| - 1;
    if n == 0 then Hex(a[0]) else Joined(a[..n]) + ":" + Hex(a[n])
  }

  // ----- the parser -----

  /**
    `colons` so far, whether the last character was one, the group being read,
    whether a double colon was passed and how many groups stood before it, and
    the groups before and after it.
  */
  datatype Scan6 = Scan6(colons: nat, colon: bool, i: nat, late: bool, before: nat, head: seq<int>, tail: seq<int>)

  const START := Scan6(0, false, 0, false, 0, Zeros(8), Zeros(8))

  predicate Fine(s: Scan6) {
    && |s.head| == |s.tail| == 8 && s.colons <= 7
    && if s.late then s.before + s.i + 1 <= s.colons else s.i <= s.colons
  }

  function Cur(s: Scan6): seq<int> {
    if s.late then s.tail else s.head
  }

  function SetCur(s: Scan6, c: seq<int>): Scan6 {
    if s.late then s.(tail := c) else s.(head := c)
  }

  function Step6(c: char, s: Scan6): (r: Option<Scan6>)
    requires Fine(s)
    ensures r.Some? ==> Fine(r.value)
  {
    if c == ':' then
      if s.colons == 7 then None
      else if !s.colon then Some(s.(colons := s.colons + 1, colon := true, i := s.i + 1))
      else if s.late then None
      else Some(s.(colons := s.colons + 1, before := s.i, i := 0, late := true))
    else
      var h := HexValue(c);
      if h < 0 then None
      else Some(SetCur(s, Cur(s)[s.i := (Cur(s)[s.i] * 16 + h) % 0x1_0000]).(colon := false))
  }

  function Run6(t: string, s: Scan6): (r: Option<Scan6>)
    requires Fine(s)
    ensures r.Some? ==> Fine(r.value)
    decreases |t|
  {
    if t == "" then Some(s)
    else
      match Step6(t[0], s)
      case None => None
      case Some(s') => Run6(t[1..], s')
  }

  /** The address once all characters are read. */
  function End6(s: Scan6): (r: Option<seq<int>>)
    requires Fine(s)
    ensures r.Some? ==> |r.value| == 8
  {
    var i := if s.colon then s.i else s.i + 1;
    if s.late then Some(s.head[..8 - i] + s.tail[..i])
    else if s.colons < 7 then None
    else Some(s.head)
  }

  /** Brackets around the text are skipped. */
  function Bare(t: string): Option<string> {
    if |t| > 0 && t[0] == '[' then (if t[|t| - 1] != ']' then None else Some(t[1..|t| - 1]))
    else Some(t)
  }

  function Parse6(t: string): (r: Option<seq<int>>)
    ensures r.Some? ==> |r.value| == 8
  {
    match Bare(t)
    case None => None
    case Some(u) =>
      match Run6(u, START)
      case None => None
      case Some(s) => End6(s)
  }

  // ----- reading printed groups -----

  lemma {:induction false} RunConcat6(t: string, u: string, s: Scan6)
    requires Fine(s) && Run6(t, s).Some?
    ensures Run6(t + u, s) == Run6(u, Run6(t, s).value)
    decreases |t|
  {
    hide Step6, Fine;
    if t == "" {
      assert t + u == u;
    } else {
      assert (t + u)[1..] == t[1..] + u;
      RunConcat6(t[1..], u, Step6(t[0], s).value);
    }
  }

  lemma RunOne(c: char, s: Scan6)
    requires Fine(s)
    ensures Run6([c], s) == Step6(c, s)
  {
    assert [c][1..] == "";
  }

  /** The state after a group. */
  function Put(s: Scan6, g: int): (r: Scan6)
    requires Fine(s)
    ensures Fine(r)
  {
    SetCur(s, Cur(s)[s.i := g]).(colon := false)
  }

  lemma StepDigit(d: nat, s: Scan6)
    requires Fine(s) && d < 16
    ensures Step6(Digit(d), s) == Some(Put(s, (Cur(s)[s.i] * 16 + d) % 0x1_0000))
  {
    DigitValue(d);
  }

  lemma {:induction false} RunHex(g: nat, s: Scan6)
    requires Fine(s) && g < 0x1_0000 && Cur(s)[s.i] == 0
    ensures Run6(Hex(g), s) == Some(Put(s, g))
    decreases g
  {
    hide Fine, Step6, Run6, Put, Cur, SetCur, Digit;
    CurLength(s);
    StepDigit(g % 16, s);
    if g < 16 {
      RunOne(Digit(g), s);
    } else {
      var h, d := g / 16, g % 16;
      RunHex(h, s);
      RunConcat6(Hex(h), [Digit(d)], s);
      RunOne(Digit(d), Put(s, h));
      StepDigit(d, Put(s, h));
      PutTwice(s, h, g);
      assert (h * 16 + d) % 0x1_0000 == g;
    }
  }

  lemma PutTwice(s: Scan6, g: int, h: int)
    requires Fine(s)
    ensures Put(Put(s, g), h) == Put(s, h) && Put(s, g).i == s.i && s.i < 8 && |Cur(Put(s, g))| == 8
    ensures Cur(Put(s, g))[s.i] == g
  {
  }

  lemma CurLength(s: Scan6)
    requires Fine(s)
    ensures |Cur(s)| == 8 && s.i < 8
  {
  }

  /** The state after several groups. */
  function PutAll(s: Scan6, a: seq<int>): (r: Scan6)
    requires Fine(s) && |a| > 0 && s.colons + |a| <= 8
    ensures Fine(r) && r.colons == s.colons + |a| - 1 && !r.colon && r.late == s.late
  {
    SetCur(s, Cur(s)[..s.i] + a + Cur(s)[s.i + |a|..])
    .(colon := false, i := s.i + |a| - 1, colons := s.colons + |a| - 1)
  }

  /** The state after a single colon. */
  function Next(s: Scan6): (r: Scan6)
    requires Fine(s) && s.colons < 7
    ensures Fine(r)
  {
    s.(colons := s.colons + 1, colon := true, i := s.i + 1)
  }

  lemma PutOne(s: Scan6, a: seq<int>)
    requires Fine(s) && |a| == 1
    ensures Put(s, a[0]) == PutAll(s, a)
  {
    assert Cur(s)[s.i := a[0]] == Cur(s)[..s.i] + a + Cur(s)[s.i + 1..];
  }

  /** One more group. */
  lemma PutLast(s: Scan6, a: seq<int>)
    requires Fine(s) && |a| > 1 && s.colons + |a| <= 8
    requires forall k :: s.i <= k < 8 ==> Cur(s)[k] == 0
    ensures var n := |a| - 1;
      var s1 := PutAll(s, a[..n]);
      && s1.colons < 7 && Step6(':', s1) == Some(Next(s1))
      && Cur(Next(s1))[s1.i + 1] == 0 && Put(Next(s1), a[n]) == PutAll(s, a)
  {
    var n := |a| - 1;
    assert (Cur(s)[..s.i] + a[..n] + Cur(s)[s.i + n..])[s.i + n := a[n]] == Cur(s)[..s.i] + a + Cur(s)[s.i + n + 1..];
  }

  lemma {:induction false} RunJoined(a: seq<int>, s: Scan6)
    requires Fine(s) && |a| > 0 && Groups(a) && s.colons + |a| <= 8
    requires forall k :: s.i <= k < 8 ==> Cur(s)[k] == 0
    ensures Run6(Joined(a), s) == Some(PutAll(s, a))
    decreases |a|
  {
    hide Run6, Step6, Put, PutAll, Next, Hex;
    var n := |a| - 1;
    if n == 0 {
      RunHex(a[0], s);
      PutOne(s, a);
    } else {
      RunJoined(a[..n], s);
      PutLast(s, a);
      var s1 := PutAll(s, a[..n]);
      RunConcat6(Joined(a[..n]), ":", s);
      RunOne(':', s1);
      RunConcat6(Joined(a[..n]) + ":", Hex(a[n]), s);
      NextIndex(s1);
      RunHex(a[n], Next(s1));
    }
  }

  lemma NextIndex(s: Scan6)
    requires Fine(s) && s.colons < 7
    ensures Next(s).i == s.i + 1
  {
  }

  // ----- round trips -----

  lemma {:induction false} HexPlain(g: nat, k: nat)
    requires 1 <= k <= 4 && g < if k == 1 then 16 else if k == 2 then 0x100 else if k == 3 then 0x1000 else 0x1_0000
    ensures |Hex(g)| <= k && Hex(g)[0] != '['
  {
    DigitValue(g % 16);
    if g >= 16 {
      HexPlain(g / 16, k - 1);
    }
  }

  /** Printed groups fit their share of the buffer, and do not start with a bracket. */
  lemma {:induction false} JoinedPlain(a: seq<int>)
    requires |a| > 0 && Groups(a)
    ensures 1 <= |Joined(a)| <= 5 * |a| - 1 && Joined(a)[0] != '['
    decreases |a|
  {
    hide Hex;
    var n := |a| - 1;
    HexPlain(a[n], 4);
    if n > 0 {
      JoinedPlain(a[..n]);
    }
  }

  /** Every address is read back from its printed form, with or without brackets. */
  lemma RoundTrip6(a: seq<int>)
    requires |a| == 8 && Groups(a)
    ensures Parse6(Joined(a)) == Some(a) && Parse6("[" + Joined(a) + "]") == Some(a)
  {
    hide Run6, Joined, Step6;
    JoinedPlain(a);
    RunJoined(a, START);
    assert Zeros(8)[..0] + a + Zeros(8)[8..] == a;
    var t := "[" + Joined(a) + "]";
    assert t[1..|t| - 1] == Joined(a);
  }

  /** The text with a double colon. */
  function Short(u: seq<int>, v: seq<int>): string
    requires Groups(u) && Groups(v)
  {
    (if u == [] then "" else Joined(u)) + "::" + (if v == [] then "" else Joined(v))
  }

  /** The state after a double colon. */
  function Double(s: Scan6): (r: Scan6)
    requires Fine(s) && !s.late && s.colons <= 5
    ensures Fine(r)
  {
    s.(colons := s.colons + 2, colon := true, before := s.i + 1, i := 0, late := true)
  }

  lemma RunDouble(s: Scan6)
    requires Fine(s) && !s.late && s.colons <= 5 && !s.colon
    ensures Run6("::", s) == Some(Double(s))
  {
    assert "::"[1..] == ":";
    RunOne(':', Next(s));
  }

  /** The state after the groups before a double colon and the double colon itself. */
  ghost function Opened(u: seq<int>): (s: Scan6)
    requires Groups(u) && |u| <= 6
    ensures Fine(s) && s.late && s.colon && s.i == 0 && s.tail == Zeros(8) && s.head == u + Zeros(8 - |u|)
    ensures s.colons == if u == [] then 2 else |u| + 1
  {
    var s := if u == [] then START else PutAll(START, u);
    assert Zeros(8)[..0] + u + Zeros(8)[|u|..] == u + Zeros(8 - |u|);
    Double(s)
  }

  lemma RunOpened(u: seq<int>)
    requires Groups(u) && |u| <= 6
    ensures Run6((if u == [] then "" else Joined(u)) + "::", START) == Some(Opened(u))
  {
    hide Run6, Joined, Step6, PutAll, Double;
    if u == [] {
      RunDouble(START);
      assert "" + "::" == "::";
    } else {
      assert forall k :: 0 <= k < 8 ==> Cur(START)[k] == 0;
      RunJoined(u, START);
      RunConcat6(Joined(u), "::", START);
      RunDouble(PutAll(START, u));
    }
  }

  lemma ShortPlain(u: seq<int>, v: seq<int>)
    requires Groups(u) && Groups(v)
    ensures Bare(Short(u, v)) == Some(Short(u, v))
  {
    if u != [] {
      JoinedPlain(u);
    }
  }

  /** A double colon stands for the groups that are missing. */
  lemma DoubleColon(u: seq<int>, v: seq<int>)
    requires Groups(u) && Groups(v) && |u| + |v| <= 7 && |u| <= 6 && |v| <= 6
    ensures Parse6(Short(u, v)) == Some(u + Zeros(8 - |u| - |v|) + v)
  {
    hide Run6, Joined, Step6, Opened, Bare;
    ShortPlain(u, v);
    RunOpened(u);
    var s := Opened(u);
    var t := (if u == [] then "" else Joined(u)) + "::";
    if v == [] {
      assert Short(u, v) == t;
      assert s.head[..8] + s.tail[..0] == u + Zeros(8 - |u| - |v|) + v;
    } else {
      RunConcat6(t, Joined(v), START);
      RunJoined(v, s);
      var s' := PutAll(s, v);
      assert s'.tail[..|v|] == v;
      assert s'.head[..8 - |v|] == u + Zeros(8 - |u| - |v|);
    }
  }

  /** Seven groups with the double colon at either end are refused, although it may stand for a single group. */
  lemma DoubleColonRefused(a: seq<int>)
    requires Groups(a) && |a| == 7
    ensures Parse6(Short(a, [])) == None && Parse6(Short([], a)) == None
  {
    hide Parse6, Short, Groups;
    RefusedLast(a);
    RefusedFirst(a);
  }

  lemma RefusedLast(a: seq<int>)
    requires Groups(a) && |a| == 7
    ensures Parse6(Short(a, [])) == None
  {
    hide Run6, Joined, Step6, Opened, Bare;
    ShortPlain(a, []);
    RunJoined(a, START);
    RunConcat6(Joined(a), "::", START);
    RunTooMany("::", PutAll(START, a));
    assert Short(a, []) == Joined(a) + "::";
  }

  lemma RefusedFirst(a: seq<int>)
    requires Groups(a) && |a| == 7
    ensures Parse6(Short([], a)) == None
  {
    hide Run6, Joined, Step6, Opened, Bare, PutAll, Hex;
    ShortPlain([], a);
    var b, last := a[..6], ":" + Hex(a[6]);
    JoinedLast(a);
    assert Short([], a) == "" + "::" + Joined(b) + last;
    AfterSix(b);
    RunConcat6("" + "::" + Joined(b), last, START);
    RunTooMany(last, Run6("" + "::" + Joined(b), START).value);
  }

  lemma AfterSix(b: seq<int>)
    requires Groups(b) && |b| == 6
    ensures var r := Run6("" + "::" + Joined(b), START); r.Some? && r.value.colons == 7 && !r.value.colon
  {
    hide Run6, Joined, Step6;
    RunOpened([]);
    RunJoined(b, Opened([]));
    RunConcat6("" + "::", Joined(b), START);
  }

  lemma JoinedLast(a: seq<int>)
    requires |a| > 1 && Groups(a)
    ensures Joined(a) == Joined(a[..|a| - 1]) + (":" + Hex(a[|a| - 1]))
  {
  }

  lemma RunTooMany(t: string, s: Scan6)
    requires Fine(s) && |t| >= 2 && t[0] == ':' && !s.colon && (s.colons == 7 || (s.colons == 6 && t[1] == ':'))
    ensures Run6(t, s) == None
  {
    if s.colons == 6 {
      assert t[1..][0] == ':';
    }
  }

  /** The text of an address, written out. */
  lemma {:induction false} ColonForm(a: seq<int>)
    requires |a| == 8 && Groups(a)
    ensures Joined(a) == Hex(a[0]) + ":" + Hex(a[1]) + ":" + Hex(a[2]) + ":" + Hex(a[3]) + ":" + Hex(a[4]) + ":"
                         + Hex(a[5]) + ":" + Hex(a[6]) + ":" + Hex(a[7])
  {
    hide Hex;
    assert a[..1][0] == a[0] && Joined(a[..1]) == Hex(a[0]);
    JoinedStep(a, 1);
    JoinedStep(a, 2);
    JoinedStep(a, 3);
    JoinedStep(a, 4);
    JoinedStep(a, 5);
    JoinedStep(a, 6);
    JoinedStep(a, 7);
    assert a[..8] == a;
  }

  lemma JoinedStep(a: seq<int>, n: nat)
    requires 0 < n < |a| && Groups(a)
    ensures Groups(a[..n]) && Groups(a[..n + 1]) && Joined(a[..n + 1]) == Joined(a[..n]) + ":" + Hex(a[n])
  {
    hide Hex;
    assert a[..n + 1][..n] == a[..n];
  }

  /** A group's text is its number in hexadecimal. */
  lemma {:induction false} HexReads(g: nat)
    ensures ParseHex(Hex(g)) == g
  {
    hide Digit, HexValue;
    DigitValue(g % 16);
    if g < 16 {
      assert Hex(g)[..0] == "";
    } else {
      HexReads(g / 16);
      assert Hex(g)[..|Hex(g)| - 1] == Hex(g / 16);
    }
  }

  function ParseHex(s: string): int {
    if s == "" then 0 else 16 * ParseHex(s[..|s| - 1]) + HexValue(s[|s| - 1])
  }

  // ----- which texts are read -----

  predicate Char6(c: char) {
    c == ':' || '0' <= c <= '9' || 'a' <= c <= 'f' || 'A' <= c <= 'F'
  }

  function Colons(t: string): nat {
    if t == "" then 0 else (if t[0] == ':' then 1 else 0) + Colons(t[1..])
  }

  /** How often a colon follows a colon; `after` says what came before the text. */
  function Doubles(t: string, after: bool): nat
    decreases |t|
  {
    if t == "" then 0 else (if after && t[0] == ':' then 1 else 0) + Doubles(t[1..], t[0] == ':')
  }

  lemma StepOk(c: char, s: Scan6)
    requires Fine(s)
    ensures Step6(c, s).Some? <==> Char6(c) && (c == ':' ==> s.colons < 7 && !(s.colon && s.late))
    ensures Step6(c, s).Some? ==>
              var s' := Step6(c, s).value;
              && s'.colons == s.colons + (if c == ':' then 1 else 0) && s'.colon == (c == ':')
              && (s'.late <==> s.late || (s.colon && c == ':'))
  {
    HexDigits();
  }

  lemma Chars(t: string)
    requires t != ""
    ensures (forall i :: 0 <= i < |t| ==> Char6(t[i])) <==>
            Char6(t[0]) && forall i :: 0 <= i < |t[1..]| ==> Char6(t[1..][i])
  {
    hide Char6;
    assert forall i :: 0 < i < |t| ==> t[i] == t[1..][i - 1];
  }

  /** The parser gets through a text exactly if it has only digits and colons, no more
      than seven colons and no second double colon. */
  lemma {:induction false} RunOk(t: string, s: Scan6)
    requires Fine(s)
    ensures Run6(t, s).Some? <==>
            && (forall i :: 0 <= i < |t| ==> Char6(t[i])) && s.colons + Colons(t) <= 7
            && (if s.late then 1 else 0) + Doubles(t, s.colon) <= 1
    ensures Run6(t, s).Some? ==>
              var s' := Run6(t, s).value;
              s'.colons == s.colons + Colons(t) && (s'.late <==> s.late || Doubles(t, s.colon) > 0)
    decreases |t|
  {
    hide Step6, Char6;
    if t != "" {
      StepOk(t[0], s);
      Chars(t);
      if Step6(t[0], s).Some? {
        RunOk(t[1..], Step6(t[0], s).value);
      }
    }
  }

  /** Digits and colons: one double colon and at most seven colons, or none and seven. */
  predicate Shape6(u: string) {
    && (forall i :: 0 <= i < |u| ==> Char6(u[i])) && Colons(u) <= 7
    && (Doubles(u, false) == 1 || (Doubles(u, false) == 0 && Colons(u) == 7))
  }

  /** Exactly the texts of that shape are read, with or without brackets. */
  lemma Accepted6(t: string)
    ensures var u := if |t| >= 2 && t[0] == '[' && t[|t| - 1] == ']' then t[1..|t| - 1] else t;
      Parse6(t).Some? <==> Shape6(u)
  {
    hide Run6, Colons, Doubles;
    if t != "" && t[0] == '[' {
      assert !Char6(t[0]);
      if |t| >= 2 && t[|t| - 1] == ']' {
        RunOk(t[1..|t| - 1], START);
      }
    } else {
      RunOk(t, START);
    }
  }
}
