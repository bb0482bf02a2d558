/**
  The interpreter as it runs (action.c): the running routes live in two fixed
  arrays with a size and a level, everything else in global variables.
*/
module Interpreter {
  import opened Wrappers
  import opened ScriptModel

  class Process {
    const k: Setting
    const routeStack: array<int>
    const routeParams: array<int>
    var routeStackStart: int
    var routeStackSize: int
    var routeRecLevel: int
    var recLev: int
    var flags: set<Flag>
    var returnCode: int
    var failed: bool
    var inside: bool
    var recursing: bool
    var world: int

    /** The arrays hold 101 names and 100 parameter levels. */
    ghost predicate Shape()
      reads this
    {
      && routeStack.Length == ROUTE_MAX_REC_LEV + 1 && routeParams.Length == ROUTE_MAX_REC_LEV
      && routeStack != routeParams && recLev >= 0
    }

    ghost predicate Valid()
      reads this
    {
      && Shape() && recursing
      && 0 <= routeStackStart < routeStackSize <= ROUTE_MAX_REC_LEV + 1
      && -1 <= routeRecLevel <= routeStackSize - 2
    }

    ghost function Here(): Env
      requires Valid()
      reads this, routeStack, routeParams
    {
      Env(routeStack[..routeStackSize], routeStackStart, routeParams[..routeRecLevel + 1], recLev)
    }

    ghost function Mem(): Memory
      reads this
    {
      Memory(flags, returnCode, failed, inside, world)
    }

    ghost predicate Ready()
      reads this, routeStack, routeParams
    {
      Valid() && Sane(k.asserts, Here().names, inside)
    }

    function Look(): View
      requires Valid()
      reads this, routeStack, routeParams
      ensures Look() == Seen(Here(), Mem())
    {
      View(routeStack[routeStackStart..routeStackSize],
           if routeRecLevel == -1 then NO_PARAMS else routeParams[routeRecLevel], returnCode)
    }

    method PushLevel(name: int, params: int)
      requires Valid() && routeStackSize <= ROUTE_MAX_REC_LEV
      modifies this`routeRecLevel, this`routeStackSize, routeStack, routeParams
      ensures Valid() && Here() == Enter(old(Here()), name, params)
      ensures routeStackSize == old(routeStackSize) + 1
    {
      routeRecLevel := routeRecLevel + 1;
      routeParams[routeRecLevel] := params;
      routeStack[routeStackSize] := name;
      routeStackSize := routeStackSize + 1;
    }

    /** Undoes a push. */
    method PopLevel(ghost env: Env, ghost name: int, ghost params: int)
      requires Valid() && Fits(env) && Here() == Enter(env, name, params)
      modifies this`routeRecLevel, this`routeStackSize
      ensures Valid() && Here() == env && routeStackSize == old(routeStackSize) - 1
    {
      routeRecLevel := routeRecLevel - 1;
      routeStackSize := routeStackSize - 1;
      assert routeStack[..routeStackSize] == env.names;
      assert routeParams[..routeRecLevel + 1] == env.params;
    }

    /** The depth that is left. */
    ghost function Left(): int
      reads this
    {
      if recursing then ROUTE_MAX_REC_LEV + 1 - routeStackSize else ROUTE_MAX_REC_LEV + 2
    }

    method RunActions(list: seq<Stmt>) returns (ret: int)
      requires Ready()
      modifies this, routeStack, routeParams
      ensures Valid() && Here() == old(Here()) && routeStackSize == old(routeStackSize)
      ensures (Mem(), ret) == RouteMeaning(k, list, old(Here()), old(Mem()))
      decreases Left(), SizeL(list), 3
    {
      hide ErrorMeaning, ListMeaning, ActionMeaning, PlainMeaning, LoopMeaning, CasesMeaning, ExprMeaning, Sane,
           Tame, TameL, TameE, TameScript, NoBreak, Sticky, Size, SizeL, SizeE, SizeC;
      if routeStackSize > ROUTE_MAX_REC_LEV {
        return E_UNSPEC;
      }
      if list == [] {
        return 1;
      }
      ret := RunActionList(list);
      flags := flags - {FlReturn};
    }

    method RunErrorRoute()
      requires Ready() && routeStackSize <= ROUTE_MAX_REC_LEV && (!k.asserts ==> !inside)
      modifies this, routeStack, routeParams
      ensures Valid() && Here() == old(Here()) && routeStackSize == old(routeStackSize)
      ensures Mem() == ErrorMeaning(k, old(Here()), old(Mem()))
      decreases Left(), 0, 0
    {
      hide RouteMeaning, ListMeaning, ActionMeaning, PlainMeaning, LoopMeaning, CasesMeaning, ExprMeaning, Sane,
           Tame, TameL, TameE, TameScript, NoBreak, Sticky, Size, SizeL, SizeE, SizeC;
      SaneEnter(k.asserts, Here().names, inside, ERROR_ROUTE);
      inside := true;
      assert Here() == old(Here());
      var _ := RunIn(k.script.error, ERROR_ROUTE, NO_PARAMS);
      failed, inside := false, false;
    }

    /** Runs a list one level further down. */
    method RunIn(list: seq<Stmt>, name: int, params: int) returns (ret: int)
      requires Valid() && routeStackSize <= ROUTE_MAX_REC_LEV && Sane(k.asserts, Here().names + [name], inside)
      modifies this, routeStack, routeParams
      ensures Valid() && Here() == old(Here()) && routeStackSize == old(routeStackSize)
      ensures (Mem(), ret) == RouteMeaning(k, list, Enter(old(Here()), name, params), old(Mem()))
      decreases Left(), 0, 0, 0
    {
      hide RouteMeaning, ErrorMeaning, ListMeaning, ActionMeaning, PlainMeaning, LoopMeaning, CasesMeaning, ExprMeaning,
           Sane, Tame, TameL, TameE, TameScript, NoBreak, Sticky, Size, SizeL, SizeE, SizeC;
      ghost var env := Here();
      PushLevel(name, params);
      ret := RunActions(list);
      PopLevel(env, name, params);
    }

    method RunActionList(list: seq<Stmt>) returns (ret: int)
      requires Ready() && routeStackSize <= ROUTE_MAX_REC_LEV
      modifies this, routeStack, routeParams
      ensures Valid() && Here() == old(Here()) && routeStackSize == old(routeStackSize)
      ensures (Mem(), ret) == ListMeaning(k, list, old(Here()), old(Mem()), E_UNSPEC)
      decreases Left(), SizeL(list), 2
    {
      hide RouteMeaning, ErrorMeaning, ActionMeaning, PlainMeaning, LoopMeaning, CasesMeaning, ExprMeaning, Sane,
           Tame, TameL, TameE, TameScript, NoBreak, Sticky, Size, SizeE, SizeC;
      ret := E_UNSPEC;
      var i := 0;
      assert list[0..] == list;
      while i < |list|
        invariant 0 <= i <= |list| && SizeL(list[i..]) <= SizeL(list)
        invariant Ready() && Here() == old(Here()) && routeStackSize == old(routeStackSize)
        invariant ListMeaning(k, list, old(Here()), old(Mem()), E_UNSPEC) ==
                  ListMeaning(k, list[i..], Here(), Mem(), ret)
      {
        assert list[i..][0] == list[i] && list[i..][1..] == list[i + 1..];
        ret := DoAction(list[i]);
        if ret == 0 {
          flags := flags + {FlExit};
        }
        if failed && k.script.error != [] && k.errors && !inside {
          RunErrorRoute();
        }
        if Stops(flags) {
          break;
        }
        i := i + 1;
      }
    }

    method DoAction(s: Stmt) returns (ret: int)
      requires Ready() && routeStackSize <= ROUTE_MAX_REC_LEV
      modifies this, routeStack, routeParams
      ensures Valid() && Here() == old(Here()) && routeStackSize == old(routeStackSize)
      ensures (Mem(), ret) == ActionMeaning(k, s, old(Here()), old(Mem()))
      decreases Left(), Size(s), 1
    {
      hide RouteMeaning, ErrorMeaning, ListMeaning, PlainMeaning, LoopMeaning, CasesMeaning, ExprMeaning,
           TermMeaning, Sane, Tame, TameL, TameE, TameScript, NoBreak, Sticky, Size, SizeL, SizeE, SizeC;
      match s
      case If(c, yes, no) =>
        ret := DoIf(c, yes, no);
      case Route(i, params) =>
        ret := DoRoute(i, params);
      case _ =>
        ret := DoPlain(s);
        returnCode := ret;
    }

    method DoRoute(i: int, params: int) returns (ret: int)
      requires Ready() && routeStackSize <= ROUTE_MAX_REC_LEV
      modifies this, routeStack, routeParams
      ensures Valid() && Here() == old(Here()) && routeStackSize == old(routeStackSize)
      ensures (Mem(), ret) == ActionMeaning(k, Route(i, params), old(Here()), old(Mem()))
      decreases Left(), Size(Route(i, params)), 0
    {
      hide RouteMeaning, ErrorMeaning, ListMeaning, PlainMeaning, LoopMeaning, CasesMeaning, ExprMeaning,
           TermMeaning, Sane, Tame, TameL, TameE, TameScript, NoBreak, Sticky, Size, SizeL, SizeE, SizeC;
      if i == -1 {
        return E_BUG;
      }
      if i < 0 || i >= |k.script.routes| {
        return E_CFG;
      }
      SaneEnter(k.asserts, Here().names, inside, i);
      returnCode := RunIn(k.script.routes[i], i, params);
      ret := returnCode;
    }

    method DoPlain(s: Stmt) returns (ret: int)
      requires !s.If? && !s.Route?
      requires Ready() && routeStackSize <= ROUTE_MAX_REC_LEV
      modifies this, routeStack, routeParams
      ensures Valid() && Here() == old(Here()) && routeStackSize == old(routeStackSize)
      ensures (Mem(), ret) == PlainMeaning(k, s, old(Here()), old(Mem()))
      decreases Left(), Size(s), 0, 1
    {
      hide RouteMeaning, ErrorMeaning, ListMeaning, ActionMeaning, LoopMeaning, CasesMeaning, ExprMeaning,
           TermMeaning, Sane, Tame, TameL, TameE, TameScript, NoBreak, Sticky, SizeL, SizeE, SizeC;
      ret := E_BUG;
      match s
      case Cmd(id) =>
        var a := k.cmd(id, Look(), world);
        failed, world, ret := failed || a.failed, a.world, a.ret;
      case Callback(top, named) =>
        ret := DoCallback(top, named);
      case Assert(c) =>
        ret := DoAssert(c);
      case Drop =>
        flags := flags + {FlDrop, FlExit};
      case Exit =>
        ret := 0;
        flags := flags + {FlExit};
      case Return(c) =>
        ret := c;
        flags := flags + {FlReturn};
      case Break =>
        flags := flags + {FlBreak};
      case While(c, body) =>
        ret := DoWhile(c, body);
      case Switch(id, cases, other) =>
        ret := DoSwitch(id, cases, other);
    }

    method DoCallback(top: nat, named: bool) returns (ret: int)
      requires Ready() && routeStackSize <= ROUTE_MAX_REC_LEV
      modifies this, routeStack, routeParams
      ensures Valid() && Here() == old(Here()) && routeStackSize == old(routeStackSize)
      ensures (Mem(), ret) == PlainMeaning(k, Callback(top, named), old(Here()), old(Mem()))
      decreases Left(), Size(Callback(top, named)), 0, 0
    {
      hide RouteMeaning, ErrorMeaning, ListMeaning, ActionMeaning, LoopMeaning, CasesMeaning, ExprMeaning,
           TermMeaning, Sane, Tame, TameL, TameE, TameScript, NoBreak, Sticky, SizeL, SizeE, SizeC;
      if top < |k.script.routes| {
        var _ := RunTopRoute(k.script.routes[top], if named then top else NO_NAME);
      }
      ret := 1;
    }

    method DoAssert(c: Expr) returns (ret: int)
      requires Ready() && routeStackSize <= ROUTE_MAX_REC_LEV
      modifies this, routeStack, routeParams
      ensures Valid() && Here() == old(Here()) && routeStackSize == old(routeStackSize)
      ensures (Mem(), ret) == PlainMeaning(k, Assert(c), old(Here()), old(Mem()))
      decreases Left(), Size(Assert(c)), 0, 0
    {
      hide RouteMeaning, ErrorMeaning, ListMeaning, ActionMeaning, LoopMeaning, CasesMeaning, ExprMeaning,
           TermMeaning, Sane, Tame, TameL, TameE, TameScript, NoBreak, Sticky, SizeL, SizeE, SizeC;
      if !k.asserts {
        return E_BUG;
      }
      var v := EvalExpr(c);
      ret := 1;
      if v <= 0 {
        ret := 0;
        failed := true;
        RunErrorRoute();
      }
    }

    method DoIf(c: Expr, yes: seq<Stmt>, no: seq<Stmt>) returns (ret: int)
      requires Ready() && routeStackSize <= ROUTE_MAX_REC_LEV
      modifies this, routeStack, routeParams
      ensures Valid() && Here() == old(Here()) && routeStackSize == old(routeStackSize)
      ensures (Mem(), ret) == ActionMeaning(k, If(c, yes, no), old(Here()), old(Mem()))
      decreases Left(), Size(If(c, yes, no)), 0
    {
      hide RouteMeaning, ErrorMeaning, ListMeaning, PlainMeaning, LoopMeaning, CasesMeaning, ExprMeaning, Sane, Tame,
           TameL, TameE, TameScript, NoBreak, Sticky, SizeL, SizeE, SizeC;
      var v := EvalExpr(c);
      if v < 0 || Quits(flags) {
        if v == EXPR_DROP || Quits(flags) {
          returnCode := 0;
          return 0;
        }
      }
      ret := 1;
      if v > 0 {
        if yes != [] {
          ret := RunActionList(yes);
          returnCode := ret;
        } else {
          returnCode := v;
        }
      } else {
        if no != [] {
          ret := RunActionList(no);
          returnCode := ret;
        } else {
          returnCode := v;
        }
      }
    }

    method DoWhile(c: Expr, body: seq<Stmt>) returns (ret: int)
      requires Ready() && routeStackSize <= ROUTE_MAX_REC_LEV
      modifies this, routeStack, routeParams
      ensures Valid() && Here() == old(Here()) && routeStackSize == old(routeStackSize)
      ensures (Mem(), ret) == LoopMeaning(k, c, body, old(Here()), old(Mem()), 0, E_BUG)
      decreases Left(), Size(While(c, body)), 0, 0
    {
      hide RouteMeaning, ErrorMeaning, ListMeaning, ActionMeaning, PlainMeaning, CasesMeaning, ExprMeaning, Sane,
           Tame, TameL, TameE, TameScript, NoBreak, Sticky, SizeL, SizeE, SizeC;
      ret := E_BUG;
      var n := 0;
      while true
        invariant n >= 0 && Ready() && Here() == old(Here()) && routeStackSize == old(routeStackSize)
        invariant LoopMeaning(k, c, body, old(Here()), old(Mem()), 0, E_BUG) ==
                  LoopMeaning(k, c, body, Here(), Mem(), n, ret)
        decreases k.maxWhile - n
      {
        if n >= k.maxWhile {
          break;
        }
        n := n + 1;
        var v := EvalExpr(c);
        if v < 0 || Quits(flags) {
          if v == EXPR_DROP || Quits(flags) {
            ret := 0;
            returnCode := 0;
            break;
          }
        }
        ret := 1;
        if v > 0 {
          if body != [] {
            ret := RunActionList(body);
            if Stops(flags) {
              flags := flags - {FlBreak};
              break;
            }
            returnCode := ret;
          } else {
            returnCode := v;
            break;
          }
        } else {
          returnCode := v;
          break;
        }
      }
    }

    method DoSwitch(id: int, cases: seq<Case>, other: seq<Stmt>) returns (ret: int)
      requires Ready() && routeStackSize <= ROUTE_MAX_REC_LEV
      modifies this, routeStack, routeParams
      ensures Valid() && Here() == old(Here()) && routeStackSize == old(routeStackSize)
      ensures (Mem(), ret) == PlainMeaning(k, Switch(id, cases, other), old(Here()), old(Mem()))
      decreases Left(), Size(Switch(id, cases, other)), 0, 0
    {
      hide RouteMeaning, ErrorMeaning, ListMeaning, ActionMeaning, LoopMeaning, CasesMeaning, ExprMeaning,
           TermMeaning, Sane, Tame, TameL, TameE, TameScript, NoBreak, Sticky, SizeL, SizeE, SizeC;
      var value := k.value(id, Look(), world);
      if value.None? {
        return E_BUG;
      }
      returnCode := 1;
      var stopped := RunFrom(cases, value.value);
      if stopped {
        flags := flags - {FlBreak};
      } else if other != [] {
        returnCode := RunActionList(other);
        flags := flags - {FlBreak};
      }
      ret := returnCode;
    }

    /** The cases of a switch from the first match on. */
    method RunFrom(cases: seq<Case>, value: int) returns (stopped: bool)
      requires Ready() && routeStackSize <= ROUTE_MAX_REC_LEV
      modifies this, routeStack, routeParams
      ensures Valid() && Here() == old(Here()) && routeStackSize == old(routeStackSize)
      ensures (Mem(), stopped) == CasesMeaning(k, cases, value, false, old(Here()), old(Mem()))
      decreases Left(), SizeC(cases), 3
    {
      hide RouteMeaning, ErrorMeaning, ListMeaning, ActionMeaning, PlainMeaning, LoopMeaning, ExprMeaning,
           TermMeaning, Sane, Tame, TameL, TameE, TameScript, NoBreak, Sticky, Size, SizeL, SizeE;
      var matched, i := false, 0;
      assert cases[0..] == cases;
      while i < |cases|
        invariant 0 <= i <= |cases| && SizeC(cases[i..]) <= SizeC(cases)
        invariant Ready() && Here() == old(Here()) && routeStackSize == old(routeStackSize)
        invariant CasesMeaning(k, cases, value, false, old(Here()), old(Mem())) ==
                  CasesMeaning(k, cases[i..], value, matched, Here(), Mem())
      {
        assert cases[i..][0] == cases[i] && cases[i..][1..] == cases[i + 1..];
        if !matched && cases[i].value == value {
          matched := true;
        }
        if matched && cases[i].body != [] {
          returnCode := RunActionList(cases[i].body);
          if Stops(flags) {
            return true;
          }
        }
        i := i + 1;
      }
      stopped := false;
    }

    method EvalExpr(e: Expr) returns (ret: int)
      requires Ready() && routeStackSize <= ROUTE_MAX_REC_LEV
      modifies this, routeStack, routeParams
      ensures Valid() && Here() == old(Here()) && routeStackSize == old(routeStackSize)
      ensures (Mem(), ret) == ExprMeaning(k, e, old(Here()), old(Mem()))
      decreases Left(), SizeE(e), 3
    {
      hide RouteMeaning, ErrorMeaning, ListMeaning, ActionMeaning, PlainMeaning, LoopMeaning, CasesMeaning,
           TermMeaning, Sane, Tame, TameL, TameE, TameScript, NoBreak, Sticky, Size, SizeL, SizeE, SizeC;
      recLev := recLev + 1;
      if recLev > MAX_REC_LEV {
        ret := -1;
      } else {
        assert Here() == old(Here()).(depth := recLev);
        ret := EvalTerm(e);
      }
      recLev := recLev - 1;
    }

    method EvalTerm(e: Expr) returns (ret: int)
      requires Ready() && routeStackSize <= ROUTE_MAX_REC_LEV
      modifies this, routeStack, routeParams
      ensures Valid() && Here() == old(Here()) && routeStackSize == old(routeStackSize)
      ensures (Mem(), ret) == TermMeaning(k, e, old(Here()), old(Mem()))
      decreases Left(), SizeE(e), 2
    {
      hide RouteMeaning, ErrorMeaning, ListMeaning, ActionMeaning, PlainMeaning, LoopMeaning, CasesMeaning,
           ExprMeaning, Sane, Tame, TameL, TameE, TameScript, NoBreak, Sticky, Size, SizeL, SizeC;
      match e
      case Test(id) =>
        var a := k.test(id, Look(), world);
        failed, world, ret := failed || a.failed, a.world, a.ret;
      case Run(list) =>
        ret := RunActionList(list);
        ret := if ret == 0 then EXPR_DROP else if ret < 0 then 0 else 1;
      case And(l, r) =>
        ret := EvalExpr(l);
        if ret == 1 {
          ret := EvalExpr(r);
        }
      case Or(l, r) =>
        ret := EvalExpr(l);
        if ret == 0 {
          ret := EvalExpr(r);
        }
      case Not(l) =>
        ret := EvalExpr(l);
        if ret >= 0 {
          ret := if ret == 0 then 1 else 0;
        }
    }

    /** A top route that a command starts: it continues on the stack. */
    method RunNested(list: seq<Stmt>, name: int) returns (result: set<Flag>)
      requires Ready() && routeStackSize <= ROUTE_MAX_REC_LEV && name >= NO_NAME
      modifies this, routeStack, routeParams
      ensures Valid() && Here() == old(Here()) && routeStackSize == old(routeStackSize) && flags == old(flags)
      ensures var env := old(Here()).(names := old(Here()).names + [name], start := old(routeStackSize));
              var m := RouteMeaning(k, list, env, old(Mem()).(flags := {}, failed := false)).0;
              Mem() == m.(flags := old(flags)) && result == m.flags
      decreases Left(), 0, 4
    {
      hide RouteMeaning, ErrorMeaning, ListMeaning, ActionMeaning, PlainMeaning, LoopMeaning, CasesMeaning,
           ExprMeaning, Sane, Tame, TameL, TameE, TameScript, NoBreak, Sticky, Size, SizeL, SizeE, SizeC;
      var saved, start, size := flags, routeStackStart, routeStackSize;
      flags, failed := {}, false;
      routeStackStart, routeStackSize := routeStackSize, routeStackSize + 1;
      routeStack[routeStackStart] := name;
      ghost var env := Here();
      assert env.names == old(Here()).names + [name] && env.params == old(Here()).params;
      SaneEnter(k.asserts, old(Here()).names, inside, name);
      var _ := RunActions(list);
      result := flags;
      routeStackSize, routeStackStart := size, start;
      assert routeStack[..routeStackSize] == env.names[..size];
      flags := saved;
    }

    /** A top route: from outside it starts the stack, from a command it continues on it. */
    method RunTopRoute(list: seq<Stmt>, name: int) returns (result: set<Flag>)
      requires if recursing then Ready() && routeStackSize <= ROUTE_MAX_REC_LEV
               else Shape() && routeRecLevel == -1 && !inside
      requires name >= NO_NAME
      modifies this, routeStack, routeParams
      ensures recursing == old(recursing) && flags == old(flags)
      ensures old(recursing) ==> Valid() && Here() == old(Here()) && routeStackSize == old(routeStackSize)
      ensures old(recursing) ==>
                var env := old(Here()).(names := old(Here()).names + [name], start := old(routeStackSize));
                var m := RouteMeaning(k, list, env, old(Mem()).(flags := {}, failed := false)).0;
                Mem() == m.(flags := old(flags)) && result == m.flags
      ensures !old(recursing) ==>
                && Shape() && routeRecLevel == -1 && recLev == old(recLev)
                && var m := RouteMeaning(k, list, Env([name], 0, [], recLev),
                                         old(Mem()).(flags := {}, failed := false)).0;
                   Mem() == m.(flags := old(flags)) && result == m.flags
      decreases Left(), 0, 5
    {
      hide RouteMeaning, ErrorMeaning, ListMeaning, ActionMeaning, PlainMeaning, LoopMeaning, CasesMeaning,
           ExprMeaning, Sane, Tame, TameL, TameE, TameScript, NoBreak, Sticky, Size, SizeL, SizeE, SizeC;
      if recursing {
        result := RunNested(list, name);
        return;
      }
      var saved := flags;
      flags, failed := {}, false;
      routeStackStart, routeStackSize, recursing := 0, 1, true;
      routeStack[0] := name;
      assert Here() == Env([name], 0, [], recLev);
      SaneStart(k.asserts, name);
      var _ := RunActions(list);
      result := flags;
      recursing := false;
      flags := saved;
    }
  }
}
