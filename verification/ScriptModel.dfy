/**
  The meaning of routing scripts (action.c, route.c) with the running routes as
  a value that is passed down.  Commands, tests and switch values are oracles
  over an opaque world; they see the running routes, the innermost parameters
  and the last return code.
*/
module ScriptModel {
  import opened Wrappers

  const ROUTE_MAX_REC_LEV := 100
  const MAX_REC_LEV := 100

  const E_UNSPEC := -1
  const E_BUG := -5
  const E_CFG := -6
  const EXPR_DROP := -127

  /** Entries of the route stack that are not routes. */
  const NO_NAME := -1
  const ERROR_ROUTE := -2
  const NO_PARAMS := 0

  datatype Expr =
    | Test(id: int)
    | Run(list: seq<Stmt>)
    | And(l: Expr, r: Expr)
    | Or(l: Expr, r: Expr)
    | Not(l: Expr)

  datatype Stmt =
    | Cmd(id: int)
    | Callback(top: nat, named: bool)   // a command that runs a top route of its own
    | Assert(cond: Expr)
    | Drop
    | Exit
    | Return(code: int)
    | Break
    | Route(route: int, params: int)
    | If(cond: Expr, yes: seq<Stmt>, no: seq<Stmt>)
    | While(cond: Expr, body: seq<Stmt>)
    | Switch(id: int, cases: seq<Case>, other: seq<Stmt>)

  datatype Case = Case(value: int, body: seq<Stmt>)

  datatype Script = Script(routes: seq<seq<Stmt>>, error: seq<Stmt>)

  datatype Flag = FlExit | FlReturn | FlDrop | FlBreak

  predicate Stops(flags: set<Flag>) {
    FlReturn in flags || FlExit in flags || FlBreak in flags
  }

  predicate Quits(flags: set<Flag>) {
    FlReturn in flags || FlExit in flags
  }

  /** What commands can see of the interpreter. */
  datatype View = View(stack: seq<int>, params: int, code: int)

  /** An answer: a value, whether an error was recorded, the new world. */
  datatype Reply = Reply(ret: int, failed: bool, world: int)

  /** The script and everything around it that does not change. */
  datatype Setting = Setting(script: Script, maxWhile: int, asserts: bool, errors: bool,
                             cmd: (int, View, int) -> Reply, test: (int, View, int) -> Reply,
                             value: (int, View, int) -> Option<int>)

  /** The running routes: names from the first on, where the current top route starts, parameters, expression depth. */
  datatype Env = Env(names: seq<int>, start: nat, params: seq<int>, depth: nat)

  datatype Memory = Memory(flags: set<Flag>, code: int, failed: bool, inside: bool, world: int)

  function Seen(env: Env, m: Memory): View
    requires env.start <= |env.names|
  {
    View(env.names[env.start..], if env.params == [] then NO_PARAMS else env.params[|env.params| - 1], m.code)
  }

  function Enter(env: Env, name: int, params: int): Env {
    env.(names := env.names + [name], params := env.params + [params])
  }

  // ----- syntax -----

  function SizeL(list: seq<Stmt>): nat {
    if list == [] then 0 else Size(list[0]) + SizeL(list[1..])
  }

  function SizeC(cases: seq<Case>): nat {
    if cases == [] then 0 else 1 + SizeL(cases[0].body) + SizeC(cases[1..])
  }

  function Size(s: Stmt): (n: nat)
    ensures n >= 1
  {
    match s
    case Assert(c) => 1 + SizeE(c)
    case If(c, y, n) => 1 + SizeE(c) + SizeL(y) + SizeL(n)
    case While(c, b) => 1 + SizeE(c) + SizeL(b)
    case Switch(_, cs, o) => 1 + SizeC(cs) + SizeL(o)
    case _ => 1
  }

  function SizeE(e: Expr): nat {
    match e
    case Test(_) => 1
    case Run(list) => 1 + SizeL(list)
    case And(l, r) => 1 + SizeE(l) + SizeE(r)
    case Or(l, r) => 1 + SizeE(l) + SizeE(r)
    case Not(l) => 1 + SizeE(l)
  }

  /** Every break is inside a loop or a switch. */
  predicate Tame(s: Stmt, inLoop: bool) {
    match s
    case Break => inLoop
    case Assert(c) => TameE(c, inLoop)
    case If(c, y, n) => TameE(c, inLoop) && TameL(y, inLoop) && TameL(n, inLoop)
    case While(c, b) => TameE(c, inLoop) && TameL(b, true)
    case Switch(_, cs, o) => (forall i :: 0 <= i < |cs| ==> TameL(cs[i].body, true)) && TameL(o, true)
    case _ => true
  }

  predicate TameL(list: seq<Stmt>, inLoop: bool) {
    forall i :: 0 <= i < |list| ==> Tame(list[i], inLoop)
  }

  predicate TameE(e: Expr, inLoop: bool) {
    match e
    case Test(_) => true
    case Run(list) => TameL(list, inLoop)
    case And(l, r) => TameE(l, inLoop) && TameE(r, inLoop)
    case Or(l, r) => TameE(l, inLoop) && TameE(r, inLoop)
    case Not(l) => TameE(l, inLoop)
  }

  predicate TameScript(s: Script) {
    TameL(s.error, false) && forall i :: 0 <= i < |s.routes| ==> TameL(s.routes[i], false)
  }

  // ----- invariants of every point of a run -----

  /** Actions run with at most 100 routes on the stack, and fewer parameter levels than routes. */
  predicate Fits(env: Env) {
    env.start < |env.names| && |env.params| < |env.names|
  }

  predicate Within(env: Env) {
    Fits(env) && |env.names| <= ROUTE_MAX_REC_LEV
  }

  /** Without asserts the error route runs at most once at a time, and the flag says whether. */
  ghost predicate Sane(asserts: bool, names: seq<int>, inside: bool) {
    !asserts ==>
      && (inside <==> ERROR_ROUTE in names)
      && forall i, j :: 0 <= i < j < |names| ==> !(names[i] == names[j] == ERROR_ROUTE)
  }

  lemma SaneStart(asserts: bool, name: int)
    ensures name != ERROR_ROUTE ==> Sane(asserts, [name], false)
  {
  }

  lemma SaneEnter(asserts: bool, names: seq<int>, inside: bool, name: int)
    requires Sane(asserts, names, inside)
    ensures name != ERROR_ROUTE ==> Sane(asserts, names + [name], inside)
    ensures (!asserts ==> !inside) ==> Sane(asserts, names + [ERROR_ROUTE], true)
  {
    assert (names + [ERROR_ROUTE])[|names|] == ERROR_ROUTE;
  }

  /** Exit and drop are never taken back. */
  predicate Sticky(m: Memory, m': Memory) {
    (FlExit in m.flags ==> FlExit in m'.flags) && (FlDrop in m.flags ==> FlDrop in m'.flags)
  }

  /** No break escapes. */
  predicate NoBreak(k: Setting, tame: bool, m: Memory, m': Memory) {
    TameScript(k.script) && tame && FlBreak !in m.flags ==> FlBreak !in m'.flags
  }

  // ----- meaning -----

  /** A route's body: its return ends here. */
  ghost function RouteMeaning(k: Setting, list: seq<Stmt>, env: Env, m: Memory): (r: (Memory, int))
    requires Fits(env) && |env.names| <= ROUTE_MAX_REC_LEV + 1 && Sane(k.asserts, env.names, m.inside)
    ensures Sticky(m, r.0) && NoBreak(k, TameL(list, false), m, r.0) && Sane(k.asserts, env.names, r.0.inside)
    ensures FlReturn !in m.flags ==> FlReturn !in r.0.flags
    decreases ROUTE_MAX_REC_LEV + 1 - |env.names|, SizeL(list), 3
  {
    if |env.names| > ROUTE_MAX_REC_LEV then (m, E_UNSPEC)
    else if list == [] then (m, 1)
    else
      var (m1, ret) := ListMeaning(k, list, env, m, E_UNSPEC);
      (m1.(flags := m1.flags - {FlReturn}), ret)
  }

  ghost function ErrorMeaning(k: Setting, env: Env, m: Memory): (m': Memory)
    requires Within(env) && Sane(k.asserts, env.names, m.inside) && (!k.asserts ==> !m.inside)
    ensures Sticky(m, m') && NoBreak(k, true, m, m') && Sane(k.asserts, env.names, m'.inside) && !m'.failed
    decreases ROUTE_MAX_REC_LEV + 1 - |env.names|, 0, 0
  {
    var (m1, _) := RouteMeaning(k, k.script.error, Enter(env, ERROR_ROUTE, NO_PARAMS), m.(inside := true));
    m1.(failed := false, inside := false)
  }

  /** Runs statements until one stops the list; an error recorded on the way runs the error route. */
  ghost function ListMeaning(k: Setting, list: seq<Stmt>, env: Env, m: Memory, ret0: int): (r: (Memory, int))
    requires Within(env) && Sane(k.asserts, env.names, m.inside)
    ensures Sticky(m, r.0) && NoBreak(k, TameL(list, false), m, r.0) && Sane(k.asserts, env.names, r.0.inside)
    ensures list != [] && r.1 == 0 ==> FlExit in r.0.flags
    decreases ROUTE_MAX_REC_LEV + 1 - |env.names|, SizeL(list), 2
  {
    if list == [] then (m, ret0)
    else
      var (m1, ret) := ActionMeaning(k, list[0], env, m);
      var m2 := if ret == 0 then m1.(flags := m1.flags + {FlExit}) else m1;
      var m3 := if m2.failed && k.script.error != [] && k.errors && !m2.inside then ErrorMeaning(k, env, m2) else m2;
      if Stops(m3.flags) then (m3, ret) else ListMeaning(k, list[1..], env, m3, ret)
  }

  ghost function ActionMeaning(k: Setting, s: Stmt, env: Env, m: Memory): (r: (Memory, int))
    requires Within(env) && Sane(k.asserts, env.names, m.inside)
    ensures Sticky(m, r.0) && NoBreak(k, Tame(s, false), m, r.0) && Sane(k.asserts, env.names, r.0.inside)
    decreases ROUTE_MAX_REC_LEV + 1 - |env.names|, Size(s), 1
  {
    match s
    case If(c, yes, no) =>
      var (m1, v) := ExprMeaning(k, c, env, m);
      if v == EXPR_DROP || Quits(m1.flags) then (m1.(code := 0), 0)
      else
        var branch := if v > 0 then yes else no;
        if branch == [] then (m1.(code := v), 1)
        else
          var (m2, ret) := ListMeaning(k, branch, env, m1, E_UNSPEC);
          (m2.(code := ret), ret)
    case Route(i, params) =>
      if i == -1 then (m, E_BUG)
      else if i < 0 || i >= |k.script.routes| then (m, E_CFG)
      else
        var (m1, ret) := RouteMeaning(k, k.script.routes[i], Enter(env, i, params), m);
        (m1.(code := ret), ret)
    case _ =>
      var (m1, ret) := PlainMeaning(k, s, env, m);
      (m1.(code := ret), ret)
  }

  /** The statements whose value becomes the return code. */
  ghost function PlainMeaning(k: Setting, s: Stmt, env: Env, m: Memory): (r: (Memory, int))
    requires Within(env) && Sane(k.asserts, env.names, m.inside) && !s.If? && !s.Route?
    ensures Sticky(m, r.0) && NoBreak(k, Tame(s, false), m, r.0) && Sane(k.asserts, env.names, r.0.inside)
    decreases ROUTE_MAX_REC_LEV + 1 - |env.names|, Size(s), 0
  {
    match s
    case Cmd(id) =>
      var a := k.cmd(id, Seen(env, m), m.world);
      (m.(failed := m.failed || a.failed, world := a.world), a.ret)
    case Callback(i, named) =>
      if i >= |k.script.routes| then (m, 1) else
      var m1 := m.(flags := {}, failed := false);
      var env1 := env.(names := env.names + [if named then i else NO_NAME], start := |env.names|);
      var (m2, _) := RouteMeaning(k, k.script.routes[i], env1, m1);
      (m2.(flags := m.flags), 1)
    case Assert(c) =>
      if !k.asserts then (m, E_BUG)
      else
        var (m1, v) := ExprMeaning(k, c, env, m);
        if v > 0 then (m1, 1) else (ErrorMeaning(k, env, m1.(failed := true)), 0)
    case Drop => (m.(flags := m.flags + {FlDrop, FlExit}), E_BUG)
    case Exit => (m.(flags := m.flags + {FlExit}), 0)
    case Return(c) => (m.(flags := m.flags + {FlReturn}), c)
    case Break => (m.(flags := m.flags + {FlBreak}), E_BUG)
    case While(c, body) => LoopMeaning(k, c, body, env, m, 0, E_BUG)
    case Switch(id, cases, other) =>
      match k.value(id, Seen(env, m), m.world)
      case None => (m, E_BUG)
      case Some(v) =>
        var (m1, done) := CasesMeaning(k, cases, v, false, env, m.(code := 1));
        if done then (m1.(flags := m1.flags - {FlBreak}), m1.code)
        else if other == [] then (m1, m1.code)
        else
          var (m2, ret) := ListMeaning(k, other, env, m1, E_UNSPEC);
          (m2.(flags := m2.flags - {FlBreak}, code := ret), ret)
  }

  /** A while loop runs at most `maxWhile` rounds. */
  ghost function LoopMeaning(k: Setting, c: Expr, body: seq<Stmt>, env: Env, m: Memory, rounds: nat, ret0: int)
    : (r: (Memory, int))
    requires Within(env) && Sane(k.asserts, env.names, m.inside)
    ensures Sticky(m, r.0) && NoBreak(k, TameE(c, false), m, r.0) && Sane(k.asserts, env.names, r.0.inside)
    decreases ROUTE_MAX_REC_LEV + 1 - |env.names|, SizeE(c) + SizeL(body), 4, k.maxWhile - rounds
  {
    if rounds >= k.maxWhile then (m, ret0)
    else
      var (m1, v) := ExprMeaning(k, c, env, m);
      if v == EXPR_DROP || Quits(m1.flags) then (m1.(code := 0), 0)
      else if v <= 0 || body == [] then (m1.(code := v), 1)
      else
        var (m2, ret) := ListMeaning(k, body, env, m1, E_UNSPEC);
        if Stops(m2.flags) then (m2.(flags := m2.flags - {FlBreak}), ret)
        else LoopMeaning(k, c, body, env, m2.(code := ret), rounds + 1, ret)
  }

  /** Runs the cases from the first match on; says whether one of them stopped. */
  ghost function CasesMeaning(k: Setting, cases: seq<Case>, v: int, matched: bool, env: Env, m: Memory)
    : (r: (Memory, bool))
    requires Within(env) && Sane(k.asserts, env.names, m.inside)
    ensures Sticky(m, r.0) && Sane(k.asserts, env.names, r.0.inside)
    ensures !r.1 && FlBreak !in m.flags ==> FlBreak !in r.0.flags
    decreases ROUTE_MAX_REC_LEV + 1 - |env.names|, SizeC(cases), 3
  {
    if cases == [] then (m, false)
    else
      var match_ := matched || cases[0].value == v;
      if !match_ || cases[0].body == [] then CasesMeaning(k, cases[1..], v, match_, env, m)
      else
        var (m1, ret) := ListMeaning(k, cases[0].body, env, m, E_UNSPEC);
        if Stops(m1.flags) then (m1.(code := ret), true)
        else CasesMeaning(k, cases[1..], v, true, env, m1.(code := ret))
  }

  ghost function ExprMeaning(k: Setting, e: Expr, env: Env, m: Memory): (r: (Memory, int))
    requires Within(env) && Sane(k.asserts, env.names, m.inside)
    ensures Sticky(m, r.0) && NoBreak(k, TameE(e, false), m, r.0) && Sane(k.asserts, env.names, r.0.inside)
    decreases ROUTE_MAX_REC_LEV + 1 - |env.names|, SizeE(e), 3
  {
    if env.depth >= MAX_REC_LEV then (m, -1) else TermMeaning(k, e, env.(depth := env.depth + 1), m)
  }

  ghost function TermMeaning(k: Setting, e: Expr, env: Env, m: Memory): (r: (Memory, int))
    requires Within(env) && Sane(k.asserts, env.names, m.inside)
    ensures Sticky(m, r.0) && NoBreak(k, TameE(e, false), m, r.0) && Sane(k.asserts, env.names, r.0.inside)
    decreases ROUTE_MAX_REC_LEV + 1 - |env.names|, SizeE(e), 2
  {
    match e
    case Test(id) =>
      var a := k.test(id, Seen(env, m), m.world);
      (m.(failed := m.failed || a.failed, world := a.world), a.ret)
    case Run(list) =>
      var (m1, ret) := ListMeaning(k, list, env, m, E_UNSPEC);
      (m1, if ret == 0 then EXPR_DROP else if ret < 0 then 0 else 1)
    case And(l, r) =>
      var (m1, v) := ExprMeaning(k, l, env, m);
      if v != 1 then (m1, v) else ExprMeaning(k, r, env, m1)
    case Or(l, r) =>
      var (m1, v) := ExprMeaning(k, l, env, m);
      if v != 0 then (m1, v) else ExprMeaning(k, r, env, m1)
    case Not(l) =>
      var (m1, v) := ExprMeaning(k, l, env, m);
      (m1, if v < 0 then v else if v == 0 then 1 else 0)
  }

  // ----- what the limits and flags do not prevent -----

  /** A route that only calls itself is cut off and reports the error at every level. */
  lemma {:induction false} EndlessRecursion(k: Setting, env: Env, m: Memory, params: int)
    requires Fits(env) && |env.names| <= ROUTE_MAX_REC_LEV + 1 && Sane(k.asserts, env.names, m.inside)
    requires k.script.routes == [[Route(0, params)]] && !m.failed && !Stops(m.flags)
    ensures RouteMeaning(k, k.script.routes[0], env, m).1 == E_UNSPEC
    ensures var m' := RouteMeaning(k, k.script.routes[0], env, m).0; !m'.failed && !Stops(m'.flags)
    decreases ROUTE_MAX_REC_LEV + 1 - |env.names|
  {
    if |env.names| <= ROUTE_MAX_REC_LEV {
      SaneEnter(k.asserts, env.names, m.inside, 0);
      EndlessRecursion(k, Enter(env, 0, params), m, params);
      var list := k.script.routes[0];
      var inner := RouteMeaning(k, list, Enter(env, 0, params), m).0;
      assert list[1..] == [];
      assert ActionMeaning(k, list[0], env, m) == (inner.(code := E_UNSPEC), E_UNSPEC);
      assert ListMeaning(k, [], env, inner.(code := E_UNSPEC), E_UNSPEC) == (inner.(code := E_UNSPEC), E_UNSPEC);
      assert ListMeaning(k, list, env, m, E_UNSPEC) == (inner.(code := E_UNSPEC), E_UNSPEC);
      assert RouteMeaning(k, list, env, m) == (inner.(code := E_UNSPEC, flags := inner.flags - {FlReturn}), E_UNSPEC);
    }
  }

  /** A break outside of any loop ends its route and goes on to stop the caller. */
  lemma StrayBreak(k: Setting, i: nat, env: Env, m: Memory)
    requires Within(env) && Sane(k.asserts, env.names, m.inside) && !m.failed && !Stops(m.flags)
    requires i < |k.script.routes| && k.script.routes[i] == [Break] && |env.names| < ROUTE_MAX_REC_LEV
    ensures FlBreak in ActionMeaning(k, Route(i, NO_PARAMS), env, m).0.flags
  {
    SaneEnter(k.asserts, env.names, m.inside, i);
    var env1 := Enter(env, i, NO_PARAMS);
    assert PlainMeaning(k, Break, env1, m) == (m.(flags := m.flags + {FlBreak}), E_BUG);
    assert ActionMeaning(k, Break, env1, m) == (m.(flags := m.flags + {FlBreak}, code := E_BUG), E_BUG);
    assert FlBreak in ListMeaning(k, [Break], env1, m, E_UNSPEC).0.flags;
    assert FlBreak in RouteMeaning(k, [Break], env1, m).0.flags;
  }

  const TWICE := [0, ERROR_ROUTE, ERROR_ROUTE]

  /** The first command fails; the error route asserts and then runs command 7, which notes what it sees. */
  function Reentry(): Setting {
    Setting(Script([[Cmd(1)]], [Assert(Test(0)), Cmd(7)]), 10000, true, true,
            (id: int, view: View, w: int) => Reply(1, id == 1, if id == 7 && view.stack == TWICE then 1 else w),
            (id: int, view: View, w: int) => Reply(if view.stack == TWICE then 1 else 0, false, w),
            (id: int, view: View, w: int) => None)
  }

  lemma InnerErrorRun(m: Memory)
    requires m == Memory({}, 1, true, true, 0)
    ensures ErrorMeaning(Reentry(), Env([0, ERROR_ROUTE], 0, [0], 0), m)
         == m.(world := 1, failed := false, inside := false)
  {
    hide Tame, TameL, TameE, TameScript, SizeL, SizeE, SizeC, LoopMeaning, CasesMeaning;
    var k := Reentry();
    var error := k.script.error;
    var env1, env2 := Env([0, ERROR_ROUTE], 0, [0], 0), Env(TWICE, 0, [0, 0], 0);
    assert Enter(env1, ERROR_ROUTE, NO_PARAMS) == env2 && env2.names[0..] == TWICE;
    assert TermMeaning(k, Test(0), env2.(depth := 1), m) == (m, 1);
    assert ExprMeaning(k, Test(0), env2, m) == (m, 1);
    assert PlainMeaning(k, Assert(Test(0)), env2, m) == (m, 1);
    assert ActionMeaning(k, Assert(Test(0)), env2, m) == (m, 1);
    assert PlainMeaning(k, Cmd(7), env2, m) == (m.(world := 1), 1);
    assert ActionMeaning(k, Cmd(7), env2, m) == (m.(world := 1), 1);
    assert error[1..] == [Cmd(7)] && [Cmd(7)][1..] == [];
    assert ListMeaning(k, [Cmd(7)], env2, m, 1) == (m.(world := 1), 1);
    assert ListMeaning(k, error, env2, m, E_UNSPEC) == (m.(world := 1), 1);
    assert m.flags - {FlReturn} == m.flags;
    assert RouteMeaning(k, error, env2, m) == (m.(world := 1), 1);
  }

  lemma OuterErrorRun(m: Memory)
    requires m == Memory({}, 1, true, false, 0)
    ensures ErrorMeaning(Reentry(), Env([0], 0, [], 0), m).world == 1
  {
    hide Tame, TameL, TameE, TameScript, SizeL, SizeE, SizeC, LoopMeaning, CasesMeaning;
    var k := Reentry();
    var error := k.script.error;
    var env0, env1 := Env([0], 0, [], 0), Env([0, ERROR_ROUTE], 0, [0], 0);
    var m1 := m.(inside := true);
    assert Enter(env0, ERROR_ROUTE, NO_PARAMS) == env1 && env1.names[0..] == env1.names != TWICE;
    InnerErrorRun(m1);
    var m2 := ErrorMeaning(k, env1, m1);
    assert TermMeaning(k, Test(0), env1.(depth := 1), m1) == (m1, 0);
    assert ExprMeaning(k, Test(0), env1, m1) == (m1, 0);
    assert PlainMeaning(k, Assert(Test(0)), env1, m1) == (m2, 0);
    assert ActionMeaning(k, Assert(Test(0)), env1, m1) == (m2.(code := 0), 0);
    assert ListMeaning(k, error, env1, m1, E_UNSPEC).0 == m2.(code := 0, flags := {FlExit});
    assert RouteMeaning(k, error, env1, m1).0.world == 1;
  }

  /** With asserts on, the error route can run inside itself. */
  lemma ErrorInsideError()
    ensures RouteMeaning(Reentry(), [Cmd(1)], Env([0], 0, [], 0), Memory({}, 1, false, false, 0)).0.world == 1
  {
    hide Tame, TameL, TameE, TameScript, SizeL, SizeE, SizeC, LoopMeaning, CasesMeaning;
    var k, env, m := Reentry(), Env([0], 0, [], 0), Memory({}, 1, false, false, 0);
    OuterErrorRun(m.(failed := true));
    assert PlainMeaning(k, Cmd(1), env, m) == (m.(failed := true), 1);
    assert ActionMeaning(k, Cmd(1), env, m) == (m.(failed := true), 1);
    assert [Cmd(1)][1..] == [];
    assert ListMeaning(k, [Cmd(1)], env, m, E_UNSPEC).0.world == 1;
  }
}
