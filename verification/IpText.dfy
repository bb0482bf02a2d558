/**
  IPv4 addresses as text (ip_addr.h): what is printed, and what the parser, one
  character at a time, makes of any text.  An address is four bytes.
*/
module IpText {
  import opened Wrappers
  import opened Numerals

  // ----- IPv4 -----

  predicate Address4(a: seq<int>) {
    |a| == 4 && forall i :: 0 <= i < 4 ==> 0 <= a[i] < 256
  }

  /** Each number with a dot after it. */
  function Dotted(a: seq<int>): string
    requires forall i :: 0 <= i < |a| ==> 0 <= a[i] < 256
  {
    if a == [] then "" else Dotted(a[..|a| - 1]) + Decimal(a[|a| - 1]) + "."
  }

  function Text4(a: seq<int>): string
    requires Address4(a)
  {
    Dotted(a[..3]) + Decimal(a[3])
  }

  /** The parser's position: `i` complete numbers, then `j` digits with value `v`. */
  datatype Scan4 = Scan4(nums: seq<int>, j: nat, v: int)

  function Step4(c: char, s: Scan4): Option<Scan4> {
    var d := c as int - '0' as int;
    if c == '.' then
      if s.j == 0 || |s.nums| == 3 then None else Some(Scan4(s.nums + [s.v], 0, 0))
    else if !IsDigit(c) then None
    else if s.j == 0 then Some(Scan4(s.nums, 1, d))
    else if s.j == 1 then (if s.v == 0 then None else Some(Scan4(s.nums, 2, s.v * 10 + d)))
    else if s.j == 2 then (if s.v > 25 || (s.v == 25 && d > 5) then None else Some(Scan4(s.nums, 3, s.v * 10 + d)))
    else None
  }

  function Run4(t: string, s: Scan4): Option<Scan4>
    decreases |t|
  {
    if t == "" then Some(s)
    else
      match Step4(t[0], s)
      case None => None
      case Some(s') => Run4(t[1..], s')
  }

  function Parse4(t: string): Option<seq<int>> {
    match Run4(t, Scan4([], 0, 0))
    case None => None
    case Some(s) => if |s.nums| == 3 then Some(s.nums + [s.v]) else None
  }

  /** What has been read is the text of what is held. */
  predicate Holds4(t: string, s: Scan4) {
    && |s.nums| <= 3 && (forall i :: 0 <= i < |s.nums| ==> 0 <= s.nums[i] < 256) && s.j <= 3
    && 0 <= s.v < 256 && (s.j == 0 ==> s.v == 0) && (s.j > 0 ==> |Decimal(s.v)| == s.j)
    && t == Dotted(s.nums) + if s.j == 0 then "" else Decimal(s.v)
  }

  lemma DigitOf(c: char)
    requires IsDigit(c)
    ensures var d := c as int - '0' as int; 0 <= d < 10 && Digit(d) == c
  {
  }

  lemma DecimalGrows(v: nat, d: nat)
    requires 0 < v && d < 10
    ensures Decimal(v * 10 + d) == Decimal(v) + [Digit(d)]
  {
    var n := v * 10 + d;
    assert n / 10 == v && n % 10 == d;
  }

  lemma DotHolds4(nums: seq<int>, v: int)
    requires (forall i :: 0 <= i < |nums| ==> 0 <= nums[i] < 256) && 0 <= v < 256
    ensures Dotted(nums + [v]) == Dotted(nums) + Decimal(v) + "."
  {
    assert (nums + [v])[..|nums|] == nums;
  }

  lemma StepHolds4(t: string, s: Scan4, c: char)
    requires Holds4(t, s) && Step4(c, s).Some?
    ensures Holds4(t + [c], Step4(c, s).value)
  {
    hide Digit, Dotted, Decimal;
    if c == '.' {
      DotHolds4(s.nums, s.v);
      assert t + ['.'] == Dotted(s.nums) + Decimal(s.v) + ".";
    } else {
      var d := c as int - '0' as int;
      DigitOf(c);
      DecimalOne(d);
      DecimalLen(s.v);
      if s.j == 0 {
        assert t + [c] == Dotted(s.nums) + [c];
      } else {
        DecimalGrows(s.v, d);
        assert t + [c] == Dotted(s.nums) + (Decimal(s.v) + [c]);
      }
    }
  }

  lemma DecimalOne(d: nat)
    requires d < 10
    ensures Decimal(d) == [Digit(d)]
  {
  }

  lemma {:induction false} RunHolds4(t: string, u: string, s: Scan4)
    requires Holds4(t, s) && Run4(u, s).Some?
    ensures Holds4(t + u, Run4(u, s).value)
    decreases |u|
  {
    hide Holds4, Step4;
    if u == "" {
      assert t + u == t;
    } else {
      StepHolds4(t, s, u[0]);
      RunHolds4(t + [u[0]], u[1..], Step4(u[0], s).value);
      assert t + u == t + [u[0]] + u[1..];
    }
  }

  lemma {:induction false} RunConcat4(t: string, u: string, s: Scan4)
    requires Run4(t, s).Some?
    ensures Run4(t + u, s) == Run4(u, Run4(t, s).value)
    decreases |t|
  {
    if t == "" {
      assert t + u == u;
    } else {
      assert (t + u)[1..] == t[1..] + u;
      RunConcat4(t[1..], u, Step4(t[0], s).value);
    }
  }

  /** A number below 256 is read as a whole. */
  lemma {:induction false} RunDecimal(n: nat, nums: seq<int>)
    requires n < 256
    ensures |Decimal(n)| <= 3 && Run4(Decimal(n), Scan4(nums, 0, 0)) == Some(Scan4(nums, |Decimal(n)|, n))
    decreases n
  {
    hide Digit;
    var d := n % 10;
    DigitValue(d);
    var s := Scan4(nums, 0, 0);
    if n < 10 {
      assert Decimal(n)[1..] == "";
    } else {
      var v := n / 10;
      RunDecimal(v, nums);
      DecimalLen(v);
      RunConcat4(Decimal(v), [Digit(d)], s);
      assert [Digit(d)][1..] == "";
    }
  }

  lemma DecimalLen(n: nat)
    ensures |Decimal(n)| == 1 <==> n < 10
    ensures |Decimal(n)| == 2 <==> 10 <= n < 100
  {
  }

  /** Numbers with dots after them are read into the list. */
  lemma {:induction false} RunDotted(a: seq<int>)
    requires |a| <= 3 && forall i :: 0 <= i < |a| ==> 0 <= a[i] < 256
    ensures Run4(Dotted(a), Scan4([], 0, 0)) == Some(Scan4(a, 0, 0))
    decreases |a|
  {
    if a != [] {
      var n := |a| - 1;
      var init := a[..n];
      RunDotted(init);
      RunDecimal(a[n], init);
      RunConcat4(Dotted(init), Decimal(a[n]), Scan4([], 0, 0));
      RunConcat4(Dotted(init) + Decimal(a[n]), ".", Scan4([], 0, 0));
      assert "."[1..] == "" && init + [a[n]] == a;
    }
  }

  /**
    The parser accepts the printed form of an address, the same form with an
    empty last number for 0, and nothing else.
  */
  lemma Parse4Exact(t: string, a: seq<int>)
    requires Address4(a)
    ensures Parse4(t) == Some(a) <==> t == Text4(a) || (a[3] == 0 && t == Dotted(a[..3]))
  {
    var start := Scan4([], 0, 0);
    assert a == a[..3] + [a[3]];
    if Parse4(t) == Some(a) {
      RunHolds4("", t, start);
      assert "" + t == t;
      var s := Run4(t, start).value;
      assert s.nums == a[..3] && s.v == a[3];
    }
    RunDotted(a[..3]);
    RunDecimal(a[3], a[..3]);
    RunConcat4(Dotted(a[..3]), Decimal(a[3]), start);
  }

  /** The text of an address, written out. */
  lemma DottedForm(a: int, b: int, c: int, d: int)
    requires 0 <= a < 256 && 0 <= b < 256 && 0 <= c < 256 && 0 <= d < 256
    ensures Text4([a, b, c, d]) == Decimal(a) + "." + Decimal(b) + "." + Decimal(c) + "." + Decimal(d)
  {
    hide Decimal;
    assert [a, b, c, d][..3] == [a, b, c] && [a, b, c][..2] == [a, b] && [a, b][..1] == [a] && [a][..0] == [];
    assert Dotted([a]) == Decimal(a) + ".";
    assert Dotted([a, b]) == Decimal(a) + "." + Decimal(b) + ".";
    assert Dotted([a, b, c]) == Decimal(a) + "." + Decimal(b) + "." + Decimal(c) + ".";
  }
}
