/**
  Multipart framing as section 5.1.1 of RFC 2046 defines it: what separates parts
  is a line end, two hyphens and the boundary.  Written framing is read back
  exactly if no part contains that delimiter.
*/
module Multipart {
  import opened Wrappers

  const LINE_END: string := "\r\n"

  /** One part between delimiter lines. */
  function Encapsulated(boundary: string, entity: string): string {
    "--" + boundary + LINE_END + (entity + LINE_END)
  }

  function Framing(boundary: string, es: seq<string>): string {
    if es == [] then "--" + boundary + "--" + LINE_END else Encapsulated(boundary, es[0]) + Framing(boundary, es[1..])
  }

  // ----- reading -----

  function Delimiter(boundary: string): string {
    LINE_END + "--" + boundary
  }

  predicate Occurs(s: string, d: string, i: nat) {
    i + |d| <= |s| && s[i..i + |d|] == d
  }

  /** The first occurrence of `d` at or after `i`, or the length. */
  function Find(s: string, d: string, i: nat): (r: nat)
    requires i <= |s| && d != ""
    ensures i <= r <= |s|
    ensures r < |s| ==> Occurs(s, d, r)
    ensures forall j :: i <= j < r ==> !Occurs(s, d, j)
    decreases |s| - i
  {
    if i == |s| || Occurs(s, d, i) then i else Find(s, d, i + 1)
  }

  function Split(s: string, d: string): seq<string>
    requires d != ""
    decreases |s|
  {
    var i := Find(s, d, 0);
    if i == |s| then [s] else [s[..i]] + Split(s[i + |d|..], d)
  }

  /** The parts up to the closing delimiter, each behind a line end. */
  function Parts(xs: seq<string>): Option<seq<string>> {
    if xs == [] then None
    else if "--" <= xs[0] then Some([])
    else if !(LINE_END <= xs[0]) then None
    else
      match Parts(xs[1..])
      case None => None
      case Some(r) => Some([xs[0][2..]] + r)
  }

  /** What comes before the first delimiter is ignored. */
  function Read(boundary: string, body: string): Option<seq<string>> {
    Parts(Split(LINE_END + body, Delimiter(boundary))[1..])
  }

  // ----- round trip -----

  /** What follows a delimiter in framing of these parts. */
  function Rest(boundary: string, es: seq<string>): string {
    if es == [] then "--" + LINE_END
    else LINE_END + es[0] + (Delimiter(boundary) + Rest(boundary, es[1..]))
  }

  lemma {:induction false} FramingIs(boundary: string, es: seq<string>)
    ensures LINE_END + Framing(boundary, es) == Delimiter(boundary) + Rest(boundary, es)
  {
    var d := Delimiter(boundary);
    if es == [] {
    } else {
      FramingIs(boundary, es[1..]);
      var rest := Framing(boundary, es[1..]);
      assert LINE_END + (Encapsulated(boundary, es[0]) + rest) == d + (LINE_END + es[0] + (LINE_END + rest));
    }
  }

  /** The delimiter cannot begin in `x` and end behind it. */
  lemma NoStraddle(x: string, d: string, y: string, i: nat)
    requires d != "" && d[0] == '\r' && '\r' !in d[1..] && i < |x| && Occurs(x + d + y, d, i)
    ensures Occurs(x, d, i)
  {
    if i + |d| > |x| {
      Overlap(x, d, y, i);
    } else {
      assert (x + d + y)[i..i + |d|] == x[i..i + |d|];
    }
  }

  lemma Overlap(x: string, d: string, y: string, i: nat)
    requires d != "" && d[0] == '\r' && '\r' !in d[1..] && i < |x| < i + |d|
    ensures !Occurs(x + d + y, d, i)
  {
    var s, k := x + d + y, |x| - i;
    assert d[k] == d[1..][k - 1];
    assert s[i..i + |d|][k] == s[|x|] == d[0];
  }

  lemma SplitFirst(x: string, d: string, y: string)
    requires d != "" && d[0] == '\r' && '\r' !in d[1..]
    ensures if Find(x, d, 0) == |x| then Split(x + d + y, d) == [x] + Split(y, d)
            else |Split(x + d + y, d)| > 0 && Split(x + d + y, d)[0] == x[..Find(x, d, 0)]
  {
    hide Split;
    var s := x + d + y;
    var i := Find(s, d, 0);
    FirstIn(x, d, y);
    SplitStep(s, d, i);
    if i == |x| {
      assert s[..i] == x && s[i + |d|..] == y;
    } else {
      assert s[..i] == x[..i];
    }
  }

  lemma SplitStep(s: string, d: string, i: nat)
    requires d != "" && i == Find(s, d, 0) < |s|
    ensures i + |d| <= |s| && Split(s, d) == [s[..i]] + Split(s[i + |d|..], d)
  {
    hide Find, Occurs;
    FoundFits(s, d, i);
  }

  lemma FoundFits(s: string, d: string, i: nat)
    requires d != "" && i == Find(s, d, 0) < |s|
    ensures i + |d| <= |s|
  {
    hide Find;
    assert Occurs(s, d, i);
  }

  lemma FirstIn(x: string, d: string, y: string)
    requires d != "" && d[0] == '\r' && '\r' !in d[1..]
    ensures Find(x + d + y, d, 0) == Find(x, d, 0)
  {
    hide Find;
    var s := x + d + y;
    var i, j := Find(s, d, 0), Find(x, d, 0);
    assert Occurs(s, d, |x|) by { assert s[|x|..|x| + |d|] == d; }
    assert i <= |x|;
    if i < |x| {
      NoStraddle(x, d, y, i);
    }
    if j < |x| {
      assert s[j..j + |d|] == x[j..j + |d|];
      assert Occurs(s, d, j);
    }
  }

  lemma DelimiterShape(boundary: string)
    requires '\r' !in boundary
    ensures var d := Delimiter(boundary); d != "" && d[0] == '\r' && '\r' !in d[1..] && |d| >= 4
  {
    var d := Delimiter(boundary);
    assert d[1..] == "\n--" + boundary;
  }

  /** No part contains the delimiter, counting the line end before it. */
  ghost predicate Clear(boundary: string, es: seq<string>) {
    forall i, j :: 0 <= i < |es| ==> !Occurs(LINE_END + es[i], Delimiter(boundary), j)
  }

  lemma {:induction false} PartsBack(boundary: string, es: seq<string>)
    requires '\r' !in boundary
    ensures Parts(Split(Rest(boundary, es), Delimiter(boundary))) == Some(es) <==> Clear(boundary, es)
  {
    hide Split, Find;
    var d := Delimiter(boundary);
    DelimiterShape(boundary);
    if es == [] {
      Closing(d);
    } else {
      var x, y := LINE_END + es[0], Rest(boundary, es[1..]);
      assert Rest(boundary, es) == x + d + y;
      var i := Find(x, d, 0);
      SplitFirst(x, d, y);
      ClearFirst(boundary, es);
      PartsBack(boundary, es[1..]);
      if i == |x| {
        assert x[2..] == es[0];
        NotFound(x, d);
        PartsFirst(x, Split(y, d), es[0]);
        assert es == [es[0]] + es[1..];
      } else {
        assert Occurs(x, d, i);
        Cut(x, i, Split(Rest(boundary, es), d), es);
      }
    }
  }

  lemma NotFound(x: string, d: string)
    requires d != "" && Find(x, d, 0) == |x|
    ensures forall j :: !Occurs(x, d, j)
  {
  }

  lemma PartsFirst(x: string, xs: seq<string>, e: string)
    requires x == LINE_END + e
    ensures Parts([x] + xs) == match Parts(xs) case None => None case Some(r) => Some([e] + r)
  {
    assert ([x] + xs)[1..] == xs && x[2..] == e;
    assert !("--" <= x) by { assert x[0] == '\r'; }
  }

  /** A part cut short at a delimiter inside is not read as it was. */
  lemma Cut(x: string, i: nat, xs: seq<string>, es: seq<string>)
    requires es != [] && x == LINE_END + es[0] && i < |x| && xs != [] && xs[0] == x[..i]
    ensures Parts(xs) != Some(es)
  {
    if "--" <= xs[0] {
      assert |xs[0]| >= 2 && xs[0][0] == x[0];
    } else if LINE_END <= xs[0] {
      assert |xs[0][2..]| < |es[0]|;
    }
  }

  lemma ClearFirst(boundary: string, es: seq<string>)
    requires es != []
    ensures Clear(boundary, es) <==>
            Clear(boundary, es[1..]) && forall j :: !Occurs(LINE_END + es[0], Delimiter(boundary), j)
  {
    hide Occurs;
    assert forall i :: 0 <= i < |es| - 1 ==> es[1..][i] == es[i + 1];
    if Clear(boundary, es[1..]) {
      forall i, j: nat | 0 < i < |es| ensures !Occurs(LINE_END + es[i], Delimiter(boundary), j) {
        assert es[1..][i - 1] == es[i];
      }
    }
  }

  lemma Closing(d: string)
    requires |d| >= 4 && d[0] == '\r'
    ensures Parts(Split("--" + LINE_END, d)) == Some([])
  {
    var s := "--" + LINE_END;
    assert s == ['-', '-', '\r', '\n'];
    forall j: nat ensures !Occurs(s, d, j) {
      assert j == 0 && |d| == 4 ==> s[0..4][0] == '-';
    }
    assert Find(s, d, 0) == |s|;
  }

  /** Framing reads back as its parts exactly if none contains the delimiter. */
  lemma ReadsBack(boundary: string, es: seq<string>)
    requires '\r' !in boundary
    ensures Read(boundary, Framing(boundary, es)) == Some(es) <==> Clear(boundary, es)
  {
    hide Split, Parts, Find, Framing, Rest, Delimiter, Clear;
    var d := Delimiter(boundary);
    DelimiterShape(boundary);
    FramingIs(boundary, es);
    PartsBack(boundary, es);
    var rest := Rest(boundary, es);
    SplitFirst("", d, rest);
    assert "" + d + rest == d + rest;
    assert ([""] + Split(rest, d))[1..] == Split(rest, d);
  }
}
