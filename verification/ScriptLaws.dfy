/**
  Laws of routing scripts (action.c, route.c): which statements run, in which order
  and how often, said about scripts and not about the functions that run them.
*/
module ScriptLaws {
  import opened Wrappers
  import opened ScriptModel

  /** A point at which a statement can run. */
  ghost predicate Point(k: Setting, env: Env, m: Memory) {
    Within(env) && Sane(k.asserts, env.names, m.inside)
  }

  // ----- lists -----

  /** Two lists in a row: the second runs where the first left off, unless that stopped. */
  lemma {:induction false} ListSplit(k: Setting, a: seq<Stmt>, b: seq<Stmt>, env: Env, m: Memory, ret0: int)
    requires Point(k, env, m) && a != []
    ensures var (m1, ret) := ListMeaning(k, a, env, m, ret0);
      ListMeaning(k, a + b, env, m, ret0) ==
      if Stops(m1.flags) then (m1, ret) else ListMeaning(k, b, env, m1, ret)
    decreases |a|
  {
    hide ErrorMeaning, ActionMeaning, Sane, Within, Size, SizeL, Tame, TameL, TameScript, Stops;
    assert (a + b)[0] == a[0] && (a + b)[1..] == a[1..] + b;
    var (m1, ret) := ActionMeaning(k, a[0], env, m);
    var m2 := if ret == 0 then m1.(flags := m1.flags + {FlExit}) else m1;
    var m3 := if m2.failed && k.script.error != [] && k.errors && !m2.inside then ErrorMeaning(k, env, m2) else m2;
    if |a| == 1 {
      assert a[1..] == [] && a[1..] + b == b;
    } else if !Stops(m3.flags) {
      ListSplit(k, a[1..], b, env, m3, ret);
    }
  }

  /** A list of one statement, as far as its flags go. */
  lemma One(k: Setting, s: Stmt, env: Env, m: Memory, ret0: int)
    requires Point(k, env, m)
    ensures var (m1, ret) := ActionMeaning(k, s, env, m);
      var (m2, ret') := ListMeaning(k, [s], env, m, ret0);
      && ret' == ret
      && ((m1.failed ==> m1.inside || !k.errors || k.script.error == []) ==>
            m2 == if ret == 0 then m1.(flags := m1.flags + {FlExit}) else m1)
      && Sticky(m1, m2)
  {
    hide ActionMeaning, ErrorMeaning, Sane, Within, Tame, TameL, TameScript, Size, SizeL;
    assert [s][1..] == [];
  }

  /** After exit, drop, return or break the rest of a list does not matter, and a
      command that answers 0 stops it too. */
  lemma Stopped(k: Setting, s: Stmt, rest: seq<Stmt>, env: Env, m: Memory, ret0: int)
    requires Point(k, env, m) && !m.failed
    requires s.Exit? || s.Drop? || s.Return? || s.Break?
    ensures ListMeaning(k, [s] + rest, env, m, ret0) == ListMeaning(k, [s], env, m, ret0)
    ensures var (m1, ret) := ListMeaning(k, [s], env, m, ret0);
      && (s.Exit? ==> ret == 0 && m1 == m.(code := 0, flags := m.flags + {FlExit}))
      && (s.Drop? ==> ret == E_BUG && m1 == m.(code := E_BUG, flags := m.flags + {FlDrop, FlExit}))
      && (s.Return? ==>
            && ret == s.code && FlReturn in m1.flags && m1.code == s.code
            && m1.flags - {FlReturn} == (m.flags - {FlReturn}) + (if s.code == 0 then {FlExit} else {}))
      && (s.Break? ==> ret == E_BUG && m1 == m.(code := E_BUG, flags := m.flags + {FlBreak}))
  {
    hide ListMeaning, ErrorMeaning, Sane, Within, Tame, TameL, TameScript, LoopMeaning, CasesMeaning, ExprMeaning;
    One(k, s, env, m, ret0);
    ListSplit(k, [s], rest, env, m, ret0);
  }

  /** A command's answer is the statement's value and the new return code. */
  lemma CmdIs(k: Setting, id: int, env: Env, m: Memory)
    requires Point(k, env, m)
    ensures var a := k.cmd(id, Seen(env, m), m.world);
      ActionMeaning(k, Cmd(id), env, m) == (m.(failed := m.failed || a.failed, world := a.world, code := a.ret), a.ret)
  {
    hide ListMeaning, ErrorMeaning, Sane, Tame, TameL, TameScript, LoopMeaning, CasesMeaning, ExprMeaning;
  }

  lemma ZeroStops(k: Setting, id: int, rest: seq<Stmt>, env: Env, m: Memory, ret0: int)
    requires Point(k, env, m) && !m.failed
    requires var a := k.cmd(id, Seen(env, m), m.world); a.ret == 0 && !a.failed
    ensures var w := k.cmd(id, Seen(env, m), m.world).world;
      ListMeaning(k, [Cmd(id)] + rest, env, m, ret0)
      == (m.(code := 0, world := w, flags := m.flags + {FlExit}), 0)
  {
    hide ListMeaning, ErrorMeaning, Sane, Tame, TameL, TameScript, LoopMeaning, CasesMeaning, ExprMeaning;
    One(k, Cmd(id), env, m, ret0);
    ListSplit(k, [Cmd(id)], rest, env, m, ret0);
  }

  // ----- if -----

  /** With a positive condition the other branch does not matter, and without one the
      first does not. */
  lemma IfOne(k: Setting, c: Expr, yes: seq<Stmt>, no: seq<Stmt>, x: seq<Stmt>, env: Env, m: Memory)
    requires Point(k, env, m)
    ensures ExprMeaning(k, c, env, m).1 > 0 ==>
              ActionMeaning(k, If(c, yes, no), env, m) == ActionMeaning(k, If(c, yes, x), env, m)
    ensures ExprMeaning(k, c, env, m).1 <= 0 ==>
              ActionMeaning(k, If(c, yes, no), env, m) == ActionMeaning(k, If(c, x, no), env, m)
  {
    hide ListMeaning, ErrorMeaning, Sane, Within, Tame, TameL, TameScript, LoopMeaning, CasesMeaning, ExprMeaning;
  }

  /** The chosen branch runs as a list where the condition left off. */
  lemma IfRuns(k: Setting, c: Expr, yes: seq<Stmt>, no: seq<Stmt>, env: Env, m: Memory)
    requires Point(k, env, m)
    ensures var (m1, v) := ExprMeaning(k, c, env, m);
      v != EXPR_DROP && FlReturn !in m1.flags && FlExit !in m1.flags ==>
        && (v > 0 && yes != [] ==>
              var (m2, ret) := ListMeaning(k, yes, env, m1, E_UNSPEC);
              ActionMeaning(k, If(c, yes, no), env, m) == (m2.(code := ret), ret))
        && (v <= 0 && no != [] ==>
              var (m2, ret) := ListMeaning(k, no, env, m1, E_UNSPEC);
              ActionMeaning(k, If(c, yes, no), env, m) == (m2.(code := ret), ret))
        && ((v > 0 && yes == []) || (v <= 0 && no == []) ==>
              ActionMeaning(k, If(c, yes, no), env, m) == (m1.(code := v), 1))
  {
    hide ListMeaning, ErrorMeaning, Sane, Within, Tame, TameL, TameScript, LoopMeaning, CasesMeaning, ExprMeaning;
  }

  /** On a test that answers 1, exit in the first branch is run; on 0 it is not. */
  lemma IfExit(k: Setting, id: int, env: Env, m: Memory)
    requires Point(k, env, m) && !m.failed && !Stops(m.flags) && env.depth < MAX_REC_LEV
    requires var a := k.test(id, Seen(env, m), m.world); !a.failed && (a.ret == 1 || a.ret == 0)
    ensures var a := k.test(id, Seen(env, m), m.world);
      FlExit in ActionMeaning(k, If(Test(id), [Exit], []), env, m).0.flags <==> a.ret == 1
  {
    hide ListMeaning, ErrorMeaning, ActionMeaning, Sane, Tame, TameL, TameScript, LoopMeaning, CasesMeaning;
    TestIs(k, id, env, m);
    IfRuns(k, Test(id), [Exit], [], env, m);
    var m1 := ExprMeaning(k, Test(id), env, m).0;
    Stopped(k, Exit, [], env, m1, E_UNSPEC);
  }

  // ----- expressions -----

  lemma TestIs(k: Setting, id: int, env: Env, m: Memory)
    requires Point(k, env, m) && env.depth < MAX_REC_LEV
    ensures var a := k.test(id, Seen(env, m), m.world);
      ExprMeaning(k, Test(id), env, m) == (m.(failed := m.failed || a.failed, world := a.world), a.ret)
  {
    hide Sane, Tame, TameL, TameScript;
  }

  /** And, or: the right side runs where the left one left off, and only if the left
      one did not decide. */
  lemma ShortCircuit(k: Setting, l: Expr, r: Expr, env: Env, m: Memory)
    requires Point(k, env, m) && env.depth < MAX_REC_LEV
    ensures var inner := env.(depth := env.depth + 1);
      var (m1, v) := ExprMeaning(k, l, inner, m);
      && (v == 1 ==> ExprMeaning(k, And(l, r), env, m) == ExprMeaning(k, r, inner, m1))
      && (v != 1 ==> ExprMeaning(k, And(l, r), env, m) == (m1, v))
      && (v == 0 ==> ExprMeaning(k, Or(l, r), env, m) == ExprMeaning(k, r, inner, m1))
      && (v != 0 ==> ExprMeaning(k, Or(l, r), env, m) == (m1, v))
      && ExprMeaning(k, Not(l), env, m).0 == m1
      && (ExprMeaning(k, Not(l), env, m).1 == 0 <==> v > 0)
      && (ExprMeaning(k, Not(l), env, m).1 == 1 <==> v == 0)
      && (v < 0 ==> ExprMeaning(k, Not(l), env, m).1 == v)
  {
    hide Sane, Tame, TameL, TameScript, ListMeaning;
  }

  /** The value of a list as a condition: true, false, or drop if it stopped the script. */
  lemma RunValue(k: Setting, list: seq<Stmt>, env: Env, m: Memory)
    requires Point(k, env, m) && env.depth < MAX_REC_LEV
    ensures var (m1, ret) := ListMeaning(k, list, env.(depth := env.depth + 1), m, E_UNSPEC);
      var (m2, v) := ExprMeaning(k, Run(list), env, m);
      m2 == m1 && (v > 0 <==> ret > 0) && (v == 0 <==> ret < 0) && (v == EXPR_DROP <==> ret == 0)
  {
    hide Sane, Tame, TameL, TameScript, ListMeaning;
  }

  // ----- while -----

  /** A round: the condition, then the body, then the next round; a break or a stop in
      the body ends the loop, and the break ends there. */
  lemma Round(k: Setting, c: Expr, body: seq<Stmt>, env: Env, m: Memory, rounds: nat, ret0: int)
    requires Point(k, env, m) && rounds < k.maxWhile && body != []
    ensures var (m1, v) := ExprMeaning(k, c, env, m);
      v > 0 && FlReturn !in m1.flags && FlExit !in m1.flags ==>
        var (m2, ret) := ListMeaning(k, body, env, m1, E_UNSPEC);
        LoopMeaning(k, c, body, env, m, rounds, ret0) ==
        if FlBreak in m2.flags || FlExit in m2.flags || FlReturn in m2.flags
        then (m2.(flags := m2.flags - {FlBreak}), ret)
        else LoopMeaning(k, c, body, env, m2.(code := ret), rounds + 1, ret)
  {
    hide ListMeaning, ErrorMeaning, Sane, Within, Tame, TameL, TameE, TameScript, ExprMeaning;
  }

  /** With a condition that does not hold the body does not matter. */
  lemma LoopFalse(k: Setting, c: Expr, body: seq<Stmt>, x: seq<Stmt>, env: Env, m: Memory)
    requires Point(k, env, m) && ExprMeaning(k, c, env, m).1 <= 0
    ensures ActionMeaning(k, While(c, body), env, m) == ActionMeaning(k, While(c, x), env, m)
  {
    hide ListMeaning, ErrorMeaning, Sane, Within, Tame, TameL, TameE, TameScript, ExprMeaning, CasesMeaning;
    assert LoopMeaning(k, c, body, env, m, 0, E_BUG) == LoopMeaning(k, c, x, env, m, 0, E_BUG);
    assert PlainMeaning(k, While(c, body), env, m) == PlainMeaning(k, While(c, x), env, m);
  }

  /** A setting in which test 0 always holds and every command counts. */
  function Counting(maxWhile: int): Setting {
    Setting(Script([], []), maxWhile, false, false,
            (id: int, view: View, w: int) => Reply(1, false, w + 1),
            (id: int, view: View, w: int) => Reply(1, false, w),
            (id: int, view: View, w: int) => None)
  }

  lemma CountOne(maxWhile: int, env: Env, m: Memory)
    requires Within(env) && Sane(false, env.names, m.inside) && !m.failed && !Stops(m.flags) && env.depth < MAX_REC_LEV
    ensures var k := Counting(maxWhile);
      && ExprMeaning(k, Test(0), env, m) == (m, 1)
      && ListMeaning(k, [Cmd(0)], env, m, E_UNSPEC) == (m.(world := m.world + 1, code := 1), 1)
  {
    hide Sane, Tame, TameL, TameScript, ListMeaning, LoopMeaning, CasesMeaning, ErrorMeaning;
    var k := Counting(maxWhile);
    One(k, Cmd(0), env, m, E_UNSPEC);
  }

  /** An endless loop runs its body exactly as often as the limit allows. */
  lemma {:induction false} RoundsCounted(maxWhile: int, env: Env, m: Memory, rounds: nat, ret0: int)
    requires Within(env) && Sane(false, env.names, m.inside) && !m.failed && !Stops(m.flags) && env.depth < MAX_REC_LEV
    ensures LoopMeaning(Counting(maxWhile), Test(0), [Cmd(0)], env, m, rounds, ret0).0.world
         == m.world + if rounds < maxWhile then maxWhile - rounds else 0
    decreases maxWhile - rounds
  {
    hide Sane, Tame, TameL, TameE, TameScript, ListMeaning, ExprMeaning, Counting;
    var k := Counting(maxWhile);
    CountSetting(maxWhile);
    if rounds < maxWhile {
      CountOne(maxWhile, env, m);
      Round(k, Test(0), [Cmd(0)], env, m, rounds, ret0);
      RoundsCounted(maxWhile, env, m.(world := m.world + 1, code := 1), rounds + 1, 1);
    }
  }

  lemma CountSetting(maxWhile: int)
    ensures Counting(maxWhile).maxWhile == maxWhile && !Counting(maxWhile).asserts
  {
  }

  // ----- switch -----

  /** The cases before the first match do not matter. */
  lemma {:induction false} CasesBefore(k: Setting, a: seq<Case>, b: seq<Case>, v: int, env: Env, m: Memory)
    requires Point(k, env, m) && forall i :: 0 <= i < |a| ==> a[i].value != v
    ensures CasesMeaning(k, a + b, v, false, env, m) == CasesMeaning(k, b, v, false, env, m)
    decreases |a|
  {
    hide ListMeaning, Sane, Within;
    if a == [] {
      assert a + b == b;
    } else {
      assert (a + b)[0] == a[0] && (a + b)[1..] == a[1..] + b;
      CasesBefore(k, a[1..], b, v, env, m);
    }
  }

  /** From the first match on the cases run in order, whatever their values, until one stops. */
  lemma CaseRuns(k: Setting, c: Case, rest: seq<Case>, v: int, matched: bool, env: Env, m: Memory)
    requires Point(k, env, m) && (matched || c.value == v) && c.body != []
    ensures var (m1, ret) := ListMeaning(k, c.body, env, m, E_UNSPEC);
      CasesMeaning(k, [c] + rest, v, matched, env, m) ==
      if FlBreak in m1.flags || FlExit in m1.flags || FlReturn in m1.flags then (m1.(code := ret), true)
      else CasesMeaning(k, rest, v, true, env, m1.(code := ret))
  {
    hide ListMeaning, Sane, Within;
    assert ([c] + rest)[1..] == rest;
  }

  /** A switch without a match runs its default only; one whose matching case stops does
      not, and a break ends there. */
  lemma SwitchRuns(k: Setting, id: int, a: seq<Case>, b: seq<Case>, other: seq<Stmt>, env: Env, m: Memory)
    requires Point(k, env, m) && k.value(id, Seen(env, m), m.world).Some?
    requires var v := k.value(id, Seen(env, m), m.world).value; forall i :: 0 <= i < |a| ==> a[i].value != v
    ensures b == [] && other != [] ==>
              var (m1, ret) := ListMeaning(k, other, env, m.(code := 1), E_UNSPEC);
              ActionMeaning(k, Switch(id, a + b, other), env, m)
              == (m1.(code := ret, flags := m1.flags - {FlBreak}), ret)
    ensures b == [] && other == [] ==> ActionMeaning(k, Switch(id, a + b, other), env, m) == (m.(code := 1), 1)
    ensures b != [] && b[0].value == k.value(id, Seen(env, m), m.world).value && b[0].body != [] ==>
              var (m1, ret) := ListMeaning(k, b[0].body, env, m.(code := 1), E_UNSPEC);
              FlBreak in m1.flags || FlExit in m1.flags || FlReturn in m1.flags ==>
                ActionMeaning(k, Switch(id, a + b, other), env, m)
                == (m1.(code := ret, flags := m1.flags - {FlBreak}), ret)
  {
    hide ListMeaning, Sane, ErrorMeaning, Tame, TameL, TameE, TameScript, LoopMeaning, ExprMeaning, CasesMeaning;
    var v := k.value(id, Seen(env, m), m.world).value;
    CasesBefore(k, a, b, v, env, m.(code := 1));
    if b == [] {
      NoCases(k, v, env, m.(code := 1));
    } else if b[0].value == v && b[0].body != [] {
      assert b == [b[0]] + b[1..];
      CaseRuns(k, b[0], b[1..], v, false, env, m.(code := 1));
    }
  }

  lemma NoCases(k: Setting, v: int, env: Env, m: Memory)
    requires Point(k, env, m)
    ensures CasesMeaning(k, [], v, false, env, m) == (m, false)
  {
    hide Sane, Within;
  }

  // ----- routes -----

  /** A route sees its parameters and itself on top of its callers. */
  lemma RouteSees(env: Env, m: Memory, i: int, params: int)
    requires env.start <= |env.names|
    ensures var view := Seen(Enter(env, i, params), m);
      view.params == params && view.stack == env.names[env.start..] + [i] && view.code == m.code
  {
  }

  /** A route that returns hands its code to the caller, which goes on. */
  lemma RouteReturns(k: Setting, i: nat, params: int, c: int, rest: seq<Stmt>, env: Env, m: Memory)
    requires Point(k, env, m) && |env.names| < ROUTE_MAX_REC_LEV && !m.failed && !Stops(m.flags)
    requires i < |k.script.routes| && k.script.routes[i] == [Return(c)] + rest && c != 0
    ensures ActionMeaning(k, Route(i, params), env, m) == (m.(code := c), c)
  {
    hide ListMeaning, ErrorMeaning, Sane, Tame, TameL, TameE, TameScript, LoopMeaning, ExprMeaning, CasesMeaning;
    SaneEnter(k.asserts, env.names, m.inside, i);
    var env1 := Enter(env, i, params);
    Stopped(k, Return(c), rest, env1, m, E_UNSPEC);
    var m1 := ListMeaning(k, [Return(c)] + rest, env1, m, E_UNSPEC).0;
    assert m1.flags - {FlReturn} == m.flags;
    ReturnOnly(k, c, env1, m);
  }

  lemma ReturnOnly(k: Setting, c: int, env: Env, m: Memory)
    requires Point(k, env, m) && !m.failed && c != 0
    ensures ListMeaning(k, [Return(c)], env, m, E_UNSPEC) == (m.(code := c, flags := m.flags + {FlReturn}), c)
  {
    hide ListMeaning, ErrorMeaning, Sane, Within, Tame, TameL, TameE, TameScript, LoopMeaning, ExprMeaning,
         CasesMeaning;
    One(k, Return(c), env, m, E_UNSPEC);
  }

  /** A command that records an error has the error route run before the next statement. */
  lemma ErrorRuns(k: Setting, id: int, env: Env, m: Memory, ret0: int)
    requires Point(k, env, m) && !m.inside && k.errors && k.script.error != []
    requires var a := k.cmd(id, Seen(env, m), m.world); a.failed && a.ret != 0
    ensures var a := k.cmd(id, Seen(env, m), m.world);
      var m1 := m.(failed := true, world := a.world, code := a.ret);
      Sane(k.asserts, env.names + [ERROR_ROUTE], true) &&
      var m2 := RouteMeaning(k, k.script.error, Enter(env, ERROR_ROUTE, NO_PARAMS), m1.(inside := true)).0;
      ListMeaning(k, [Cmd(id)], env, m, ret0) == (m2.(failed := false, inside := false), a.ret)
  {
    hide RouteMeaning, Sane, Tame, TameL, TameE, TameScript, LoopMeaning, ExprMeaning, CasesMeaning;
    SaneEnter(k.asserts, env.names, m.inside, ERROR_ROUTE);
    var a := k.cmd(id, Seen(env, m), m.world);
    var m1 := m.(failed := true, world := a.world, code := a.ret);
    assert PlainMeaning(k, Cmd(id), env, m) == (m.(failed := true, world := a.world), a.ret);
    assert ActionMeaning(k, Cmd(id), env, m) == (m1, a.ret);
    assert [Cmd(id)][1..] == [];
    var m2 := ErrorMeaning(k, env, m1);
    assert ListMeaning(k, [], env, m2, a.ret) == (m2, a.ret);
  }

  /** A top route that a command runs leaves the caller's flags alone. */
  lemma CallbackKeeps(k: Setting, i: nat, named: bool, env: Env, m: Memory)
    requires Point(k, env, m)
    ensures var (m1, ret) := ActionMeaning(k, Callback(i, named), env, m);
      ret == 1 && m1.code == 1 && m1.flags == m.flags
  {
    hide RouteMeaning, ListMeaning, ErrorMeaning, Tame, TameL, TameE, TameScript, LoopMeaning, ExprMeaning,
         CasesMeaning;
    SaneEnter(k.asserts, env.names, m.inside, if named then i else NO_NAME);
  }

  /** An assert that holds goes on; one that does not stops the script. */
  lemma AssertStops(k: Setting, c: Expr, env: Env, m: Memory)
    requires Point(k, env, m) && k.asserts
    ensures var (m1, v) := ExprMeaning(k, c, env, m);
      var (m2, ret) := ActionMeaning(k, Assert(c), env, m);
      && (v > 0 ==> ret == 1 && m2 == m1.(code := 1))
      && (v <= 0 ==>
            ret == 0 && m2.code == 0 && !m2.failed
            && FlExit in ListMeaning(k, [Assert(c)], env, m, E_UNSPEC).0.flags)
  {
    hide RouteMeaning, ListMeaning, ErrorMeaning, Sane, Within, Tame, TameL, TameE, TameScript, LoopMeaning,
         ExprMeaning, CasesMeaning;
    One(k, Assert(c), env, m, E_UNSPEC);
  }

  /** A top route run by a command sees only itself, by name or as unnamed. */
  lemma CallbackSees(k: Setting, i: nat, named: bool, id: int, env: Env, m: Memory)
    requires Point(k, env, m) && |env.names| < ROUTE_MAX_REC_LEV
    requires i < |k.script.routes| && k.script.routes[i] == [Cmd(id)]
    requires var view := View([if named then i else -1], Seen(env, m).params, m.code);
      !k.cmd(id, view, m.world).failed
    ensures var view := View([if named then i else -1], Seen(env, m).params, m.code);
      ActionMeaning(k, Callback(i, named), env, m).0.world == k.cmd(id, view, m.world).world
  {
    hide RouteMeaning, ListMeaning, ErrorMeaning, Sane, Tame, TameL, TameE, TameScript, LoopMeaning, ExprMeaning,
         CasesMeaning;
    var name := if named then i else NO_NAME;
    SaneEnter(k.asserts, env.names, m.inside, name);
    var env1 := env.(names := env.names + [name], start := |env.names|);
    assert env1.names[env1.start..] == [name];
    RouteCmd(k, id, env1, m.(flags := {}, failed := false));
  }

  lemma RouteCmd(k: Setting, id: int, env: Env, m: Memory)
    requires Point(k, env, m) && !m.failed && !k.cmd(id, Seen(env, m), m.world).failed
    ensures RouteMeaning(k, [Cmd(id)], env, m).0.world == k.cmd(id, Seen(env, m), m.world).world
  {
    hide ListMeaning, ActionMeaning, ErrorMeaning, Sane, Tame, TameL, TameE, TameScript;
    CmdIs(k, id, env, m);
    One(k, Cmd(id), env, m, E_UNSPEC);
  }

  /** What is refused and with which code: an unknown route keeps the return code, the others set it. */
  lemma Refusals(k: Setting, i: int, p: int, id: int, cs: seq<Case>, o: seq<Stmt>, c: Expr, env: Env, m: Memory)
    requires Point(k, env, m)
    ensures i == -1 ==> ActionMeaning(k, Route(i, p), env, m) == (m, -5)
    ensures i < -1 || i >= |k.script.routes| ==> ActionMeaning(k, Route(i, p), env, m) == (m, -6)
    ensures k.value(id, Seen(env, m), m.world).None? ==>
              ActionMeaning(k, Switch(id, cs, o), env, m) == (m.(code := -5), -5)
    ensures !k.asserts ==> ActionMeaning(k, Assert(c), env, m) == (m.(code := -5), -5)
  {
    hide ListMeaning, ErrorMeaning, RouteMeaning, Sane, Tame, TameL, TameE, TameScript, LoopMeaning, CasesMeaning;
  }

  /** A condition inside a hundred others is an error, whatever it is, and nothing of it is evaluated. */
  lemma TooDeep(k: Setting, c: Expr, env: Env, m: Memory)
    requires Point(k, env, m) && env.depth >= 100
    ensures ExprMeaning(k, c, env, m) == (m, -1)
  {
    hide ListMeaning, ErrorMeaning, RouteMeaning, Sane, Tame, TameL, TameE, TameScript, LoopMeaning, CasesMeaning;
  }
}
