/** Any number of callers switching the default storage class at the same time, each
    remote call one atomic step that may fail. */
module DefaultClassRace {
  import opened Listings
  import opened StorageClasses
  import opened Wrappers

  /** What a caller does next: list, clear the marks it listed, set its own; `asked` says
      whether a caller that failed had issued its setting call. */
  datatype Stage = Listing | Disabling(todo: seq<string>) | Setting | Done | Failed(asked: bool)

  datatype Switcher = Switcher(name: string, stage: Stage)

  datatype System = System(classes: Classes, switchers: seq<Switcher>)

  /** A call that is lost reports an error; it may have reached the server. */
  datatype Fault = Fine | Lost(reached: bool)

  datatype Turn = Turn(who: nat, fault: Fault)

  function Clearing(todo: seq<string>): Stage
  {
    if todo == [] then Setting else Disabling(todo)
  }

  function CallOf(order: seq<string>, c: Classes, w: Switcher, fault: Fault): (Classes, Stage)
  {
    match w.stage
    case Listing => (c, if fault.Fine? then Clearing(Pick(order, Marked(c))) else Failed(false))
    case Disabling(todo) =>
      if todo == [] then (c, Setting)
      else
        (if fault == Lost(false) then c else Cleared(c, [todo[0]]),
         if fault.Fine? then Clearing(todo[1..]) else Failed(false))
    case Setting =>
      if w.name !in c then (c, Failed(true))
      else
        (if fault == Lost(false) then c else MadeDefault(c, w.name),
         if fault.Fine? then Done else Failed(true))
    case Done => (c, w.stage)
    case Failed(_) => (c, w.stage)
  }

  function Step(order: seq<string>, s: System, turn: Turn): (n: System)
    ensures |n.switchers| == |s.switchers|
    ensures forall j :: 0 <= j < |s.switchers| ==> n.switchers[j].name == s.switchers[j].name
  {
    if turn.who < |s.switchers| then
      var w := s.switchers[turn.who];
      var (classes, stage) := CallOf(order, s.classes, w, turn.fault);
      System(classes, s.switchers[turn.who := w.(stage := stage)])
    else s
  }

  /** Nothing keeps an unfinished caller from its turn. A call that is lost on the way there
      changes nothing, one that is lost on the way back takes effect. */
  lemma EveryTurnCounts(order: seq<string>, s: System, i: nat, fault: Fault)
    requires i < |s.switchers|
    ensures var w, n := s.switchers[i], Step(order, s, Turn(i, fault));
            && (forall j :: 0 <= j < |s.switchers| && j != i ==> n.switchers[j] == s.switchers[j])
            && (fault == Lost(false) || w.stage == Listing || w.stage == Done || w.stage.Failed? ==>
                  n.classes == s.classes)
            && (w.stage.Disabling? && w.stage.todo != [] && fault != Lost(false) ==>
                  n.classes == Cleared(s.classes, [w.stage.todo[0]]))
            && (w.stage == Setting && fault != Lost(false) ==> n.classes == MadeDefault(s.classes, w.name))
            && (fault != Fine && w.stage != Done && !(w.stage.Disabling? && w.stage.todo == []) ==>
                  n.switchers[i].stage.Failed?)
            && (fault == Fine && w.stage == Setting && w.name in s.classes ==> n.switchers[i].stage == Done)
            && (fault == Fine && w.stage == Listing ==>
                  n.switchers[i].stage == Clearing(Pick(order, Marked(s.classes))))
  {}

  function Exec(order: seq<string>, s: System, turns: seq<Turn>): (n: System)
    ensures |n.switchers| == |s.switchers|
    ensures forall j :: 0 <= j < |s.switchers| ==> n.switchers[j].name == s.switchers[j].name
    decreases |turns|
  {
    if turns == [] then s else Exec(order, Step(order, s, turns[0]), turns[1..])
  }

  ghost predicate Starting(order: seq<string>, s: System)
  {
    Lists(order, s.classes) && forall j :: 0 <= j < |s.switchers| ==> s.switchers[j].stage == Listing
  }

  ghost predicate AllDone(s: System)
  {
    forall j :: 0 <= j < |s.switchers| ==> s.switchers[j].stage == Done
  }

  ghost predicate Named(s: System, x: string)
  {
    exists j :: 0 <= j < |s.switchers| && s.switchers[j].name == x
  }

  // ---------------------------------------------------------------- what every step keeps

  /** The caller has cleared every mark it listed. */
  predicate Passed(stage: Stage)
  {
    stage == Setting || stage == Done || stage == Failed(true)
  }

  predicate Asked(stage: Stage)
  {
    stage == Done || stage == Failed(true)
  }

  ghost predicate AskedFor(s: System, x: string)
  {
    exists j :: 0 <= j < |s.switchers| && s.switchers[j].name == x && Asked(s.switchers[j].stage)
  }

  predicate WillClear(stage: Stage, x: string)
  {
    !Passed(stage) && (stage.Disabling? ==> x in stage.todo)
  }

  /** A default class nobody asked for is still ahead of every caller under way. */
  ghost predicate Accounted(s: System, x: string)
  {
    AskedFor(s, x) || forall j :: 0 <= j < |s.switchers| ==> WillClear(s.switchers[j].stage, x)
  }

  predicate UnderWay(stage: Stage)
  {
    stage.Disabling? || stage == Setting || stage.Failed?
  }

  /** Once a caller is done there is a default class, unless another caller has begun
      clearing marks and has not finished. */
  ghost predicate SomeDefault(s: System)
  {
    (exists j :: 0 <= j < |s.switchers| && s.switchers[j].stage == Done) ==>
    (Defaults(s.classes) != {} || exists j :: 0 <= j < |s.switchers| && UnderWay(s.switchers[j].stage))
  }

  ghost predicate RaceInv(order: seq<string>, s: System)
  {
    && Lists(order, s.classes)
    && (forall x :: x in Defaults(s.classes) ==> Accounted(s, x))
    && SomeDefault(s)
  }

  lemma CallKeepsNames(order: seq<string>, c: Classes, w: Switcher, fault: Fault)
    ensures CallOf(order, c, w, fault).0.Keys == c.Keys
  {}

  /** A default class after the call either was one before and the caller still has it
      ahead, or is the one the caller has just asked for. */
  lemma CallAccounts(order: seq<string>, c: Classes, w: Switcher, fault: Fault, x: string)
    requires Lists(order, c) && x in Defaults(CallOf(order, c, w, fault).0)
    ensures var stage := CallOf(order, c, w, fault).1;
            || (x in Defaults(c) && (WillClear(w.stage, x) ==> WillClear(stage, x)))
            || (x == w.name && Asked(stage))
  {
    PickMembers(order, Marked(c));
    if w.stage.Disabling? && w.stage.todo != [] {
      var todo := w.stage.todo;
      PatchedAllAt(c, [todo[0]], Annotate(DEFAULT_CLASS, "false"), x);
      assert todo == [todo[0]] + todo[1..];
    }
  }

  lemma StepKeepsAccounted(order: seq<string>, s: System, turn: Turn, x: string)
    requires RaceInv(order, s) && x in Defaults(Step(order, s, turn).classes)
    ensures Accounted(Step(order, s, turn), x)
  {
    hide Lists, Defaults, CallOf, WillClear, SomeDefault;
    if turn.who < |s.switchers| {
      var w, n := s.switchers[turn.who], Step(order, s, turn);
      var stage := n.switchers[turn.who].stage;
      CallAccounts(order, s.classes, w, turn.fault, x);
      AskedStays(order, s.classes, w, turn.fault);
      if x == w.name && Asked(stage) {
        assert n.switchers[turn.who].name == x;
      } else if AskedFor(s, x) {
        var j :| 0 <= j < |s.switchers| && s.switchers[j].name == x && Asked(s.switchers[j].stage);
        assert n.switchers[j].name == x && Asked(n.switchers[j].stage);
      }
    }
  }

  lemma AskedStays(order: seq<string>, c: Classes, w: Switcher, fault: Fault)
    ensures Asked(w.stage) ==> CallOf(order, c, w, fault) == (c, w.stage)
    ensures CallOf(order, c, w, fault).1 == Done ==> w.stage == Done || w.name in Defaults(CallOf(order, c, w, fault).0)
    ensures CallOf(order, c, w, fault).0 == c || UnderWay(CallOf(order, c, w, fault).1)
            || CallOf(order, c, w, fault).1 == Done
    ensures UnderWay(w.stage) ==> UnderWay(CallOf(order, c, w, fault).1) || CallOf(order, c, w, fault).1 == Done
  {}

  lemma StepKeepsSomeDefault(order: seq<string>, s: System, turn: Turn)
    requires SomeDefault(s)
    ensures SomeDefault(Step(order, s, turn))
  {
    hide Defaults, CallOf, UnderWay;
    var n := Step(order, s, turn);
    if turn.who < |s.switchers| && exists j :: 0 <= j < |n.switchers| && n.switchers[j].stage == Done {
      var w := s.switchers[turn.who];
      var stage := n.switchers[turn.who].stage;
      AskedStays(order, s.classes, w, turn.fault);
      if !UnderWay(stage) && !(stage == Done && w.stage != Done) {
        assert n.classes == s.classes;
        var j :| 0 <= j < |n.switchers| && n.switchers[j].stage == Done;
        assert s.switchers[j].stage == Done;
        if Defaults(s.classes) == {} {
          var k :| 0 <= k < |s.switchers| && UnderWay(s.switchers[k].stage);
          assert UnderWay(n.switchers[k].stage);
        }
      }
    }
  }

  lemma StepKeepsRaceInv(order: seq<string>, s: System, turn: Turn)
    requires RaceInv(order, s)
    ensures RaceInv(order, Step(order, s, turn))
  {
    hide Defaults, CallOf, Accounted, SomeDefault;
    var n := Step(order, s, turn);
    if turn.who < |s.switchers| {
      CallKeepsNames(order, s.classes, s.switchers[turn.who], turn.fault);
      assert n.classes.Keys == s.classes.Keys;
    }
    forall x | x in Defaults(n.classes) ensures Accounted(n, x) {
      StepKeepsAccounted(order, s, turn, x);
    }
    StepKeepsSomeDefault(order, s, turn);
  }

  lemma {:induction false} ExecKeepsRaceInv(order: seq<string>, s: System, turns: seq<Turn>)
    requires RaceInv(order, s)
    ensures RaceInv(order, Exec(order, s, turns))
    decreases |turns|
  {
    hide RaceInv, CallOf;
    if turns != [] {
      StepKeepsRaceInv(order, s, turns[0]);
      ExecKeepsRaceInv(order, Step(order, s, turns[0]), turns[1..]);
    }
  }

  // ---------------------------------------------------------------- what a race leaves

  /** In every reachable state, once some caller has cleared the marks it listed, every
      default class is one that some caller has asked for. */
  lemma OnlyAskedForDefaults(order: seq<string>, s: System, turns: seq<Turn>, i: nat, x: string)
    requires Starting(order, s) && i < |s.switchers|
    requires Passed(Exec(order, s, turns).switchers[i].stage) && x in Defaults(Exec(order, s, turns).classes)
    ensures AskedFor(Exec(order, s, turns), x)
  {
    assert RaceInv(order, s);
    ExecKeepsRaceInv(order, s, turns);
    var n := Exec(order, s, turns);
    assert Accounted(n, x);
    assert !WillClear(n.switchers[i].stage, x);
  }

  /** However any number of callers interleave, if all succeed the cluster ends with at
      least one default class, and only with classes they named. */
  lemma AllDoneLeavesNamedDefaults(order: seq<string>, s: System, turns: seq<Turn>)
    requires Starting(order, s) && s.switchers != [] && AllDone(Exec(order, s, turns))
    ensures var end := Defaults(Exec(order, s, turns).classes);
            end != {} && forall x :: x in end ==> Named(s, x)
  {
    assert RaceInv(order, s);
    ExecKeepsRaceInv(order, s, turns);
    var n := Exec(order, s, turns);
    assert n.switchers[0].stage == Done;
    forall x | x in Defaults(n.classes) ensures Named(s, x) {
      OnlyAskedForDefaults(order, s, turns, 0, x);
      var j :| 0 <= j < |n.switchers| && n.switchers[j].name == x && Asked(n.switchers[j].stage);
      assert s.switchers[j].name == x;
    }
  }

  /** Callers that race for the same class leave it the only default. */
  lemma SameNameLeavesOneDefault(order: seq<string>, s: System, turns: seq<Turn>, name: string)
    requires Starting(order, s) && s.switchers != [] && AllDone(Exec(order, s, turns))
    requires forall j :: 0 <= j < |s.switchers| ==> s.switchers[j].name == name
    ensures Defaults(Exec(order, s, turns).classes) == {name}
  {
    AllDoneLeavesNamedDefaults(order, s, turns);
    var end := Defaults(Exec(order, s, turns).classes);
    var x :| x in end;
    assert x == name;
  }

  // ---------------------------------------------------------------- everybody finishes

  function TurnsOf(turns: seq<Turn>, i: nat): nat
  {
    if turns == [] then 0 else (if turns[0].who == i then 1 else 0) + TurnsOf(turns[1..], i)
  }

  /** Turns a caller needs at most. */
  function Ahead(order: seq<string>, stage: Stage): nat
  {
    match stage
    case Listing => |order| + 3
    case Disabling(todo) => |todo| + 2
    case Setting => 1
    case _ => 0
  }

  lemma {:induction false} PickLength<T>(order: seq<T>, s: set<T>)
    ensures |Pick(order, s)| <= |order|
  {
    if order != [] {
      PickLength(order[1..], s);
    }
  }

  lemma CallDescends(order: seq<string>, c: Classes, w: Switcher, fault: Fault)
    ensures var stage := CallOf(order, c, w, fault).1;
            Ahead(order, stage) < Ahead(order, w.stage) || Ahead(order, stage) == 0
    ensures Ahead(order, w.stage) == 0 ==> CallOf(order, c, w, fault).1 == w.stage
  {
    PickLength(order, Marked(c));
  }

  lemma {:induction false} TurnsDescend(order: seq<string>, s: System, turns: seq<Turn>, i: nat)
    requires i < |s.switchers|
    ensures var stage := Exec(order, s, turns).switchers[i].stage;
            Ahead(order, stage) == 0 || Ahead(order, stage) + TurnsOf(turns, i) <= Ahead(order, s.switchers[i].stage)
    decreases |turns|
  {
    hide CallOf, Ahead;
    if turns != [] {
      if turns[0].who < |s.switchers| {
        CallDescends(order, s.classes, s.switchers[turns[0].who], turns[0].fault);
      }
      TurnsDescend(order, Step(order, s, turns[0]), turns[1..], i);
      if turns[0].who == i && Ahead(order, s.switchers[i].stage) == 0 {
        FinishedStays(order, Step(order, s, turns[0]), turns[1..], i);
      }
    }
  }

  lemma {:induction false} FinishedStays(order: seq<string>, s: System, turns: seq<Turn>, i: nat)
    requires i < |s.switchers| && Ahead(order, s.switchers[i].stage) == 0
    ensures Exec(order, s, turns).switchers[i].stage == s.switchers[i].stage
    decreases |turns|
  {
    hide CallOf, Ahead;
    if turns != [] {
      if turns[0].who < |s.switchers| {
        CallDescends(order, s.classes, s.switchers[turns[0].who], turns[0].fault);
      }
      FinishedStays(order, Step(order, s, turns[0]), turns[1..], i);
    }
  }

  /** A caller that gets enough turns succeeds or fails, whatever the others do. */
  lemma EnoughTurnsFinish(order: seq<string>, s: System, turns: seq<Turn>, i: nat)
    requires Starting(order, s) && i < |s.switchers| && TurnsOf(turns, i) >= |order| + 3
    ensures var stage := Exec(order, s, turns).switchers[i].stage; stage == Done || stage.Failed?
  {
    hide Exec;
    TurnsDescend(order, s, turns, i);
  }

  // ---------------------------------------------------------------- what a race can leave

  lemma {:induction false} ExecMore(order: seq<string>, s: System, a: seq<Turn>, b: seq<Turn>)
    ensures Exec(order, s, a + b) == Exec(order, Exec(order, s, a), b)
    decreases |a|
  {
    hide Step;
    if a == [] {
      assert a + b == b;
    } else {
      ExecMore(order, Step(order, s, a[0]), a[1..], b);
      assert (a + b)[0] == a[0] && (a + b)[1..] == a[1..] + b;
    }
  }

  lemma ExecOneMore(order: seq<string>, s: System, turns: seq<Turn>, t: Turn)
    ensures Exec(order, s, turns + [t]) == Step(order, Exec(order, s, turns), t)
  {
    hide Step;
    ExecMore(order, s, turns, [t]);
    assert [t][1..] == [];
    assert Exec(order, Exec(order, s, turns), [t]) == Step(order, Exec(order, s, turns), t);
  }

  /** A caller that is let run clears all it has listed. */
  lemma {:induction false} ClearsAll(order: seq<string>, s: System, i: nat) returns (turns: seq<Turn>)
    requires i < |s.switchers| && (s.switchers[i].stage.Disabling? || s.switchers[i].stage == Setting)
    ensures var n := Exec(order, s, turns);
            n.classes.Keys == s.classes.Keys && n.switchers == s.switchers[i := s.switchers[i].(stage := Setting)]
    decreases if s.switchers[i].stage.Disabling? then |s.switchers[i].stage.todo| + 1 else 0
  {
    turns := [];
    if s.switchers[i].stage.Disabling? {
      var t := Turn(i, Fine);
      var s1 := Step(order, s, t);
      CallKeepsNames(order, s.classes, s.switchers[i], Fine);
      var rest := ClearsAll(order, s1, i);
      turns := [t] + rest;
      assert turns[1..] == rest;
      assert Exec(order, s, turns) == Exec(order, s1, rest);
    }
  }

  /** The first `k` callers may all come to their setting call before the others start. */
  lemma {:induction false} FirstReadyToSet(order: seq<string>, s: System, k: nat) returns (turns: seq<Turn>)
    requires k <= |s.switchers| && forall j :: 0 <= j < |s.switchers| ==> s.switchers[j].stage == Listing
    ensures var n := Exec(order, s, turns);
            && n.classes.Keys == s.classes.Keys
            && forall j :: 0 <= j < |s.switchers| ==> n.switchers[j].stage == if j < k then Setting else Listing
  {
    turns := [];
    if k > 0 {
      var before := FirstReadyToSet(order, s, k - 1);
      var i: nat := k - 1;
      var n := Exec(order, s, before);
      var t := Turn(i, Fine);
      var n1 := Step(order, n, t);
      ExecOneMore(order, s, before, t);
      var rest := ClearsAll(order, n1, i);
      ExecMore(order, s, before + [t], rest);
      turns := before + [t] + rest;
    }
  }

  /** From there the first `k` may set their classes, one after the other. */
  lemma {:induction false} FirstSet(order: seq<string>, s: System, k: nat) returns (turns: seq<Turn>)
    requires k <= |s.switchers| && forall j :: 0 <= j < |s.switchers| ==> s.switchers[j].stage == Setting
    requires forall j :: 0 <= j < |s.switchers| ==> s.switchers[j].name in s.classes
    ensures var n := Exec(order, s, turns);
            && n.classes.Keys == s.classes.Keys
            && (forall j :: 0 <= j < |s.switchers| ==> n.switchers[j].stage == if j < k then Done else Setting)
            && (forall j :: 0 <= j < k ==> s.switchers[j].name in Defaults(n.classes))
  {
    turns := [];
    if k > 0 {
      hide Defaults, Marked;
      var before := FirstSet(order, s, k - 1);
      var i: nat := k - 1;
      var n := Exec(order, s, before);
      var t := Turn(i, Fine);
      ExecOneMore(order, s, before, t);
      MadeDefaultAdds(n.classes, s.switchers[i].name);
      turns := before + [t];
    }
  }

  /** Whatever the cluster, callers that all know existing classes may all succeed and leave
      every class they named a default. */
  lemma RaceCanLeaveAllNames(order: seq<string>, s: System) returns (turns: seq<Turn>)
    requires Starting(order, s) && s.switchers != []
    requires forall j :: 0 <= j < |s.switchers| ==> s.switchers[j].name in s.classes
    ensures AllDone(Exec(order, s, turns))
    ensures forall x :: x in Defaults(Exec(order, s, turns).classes) <==> Named(s, x)
  {
    hide Defaults, Step;
    var ready := FirstReadyToSet(order, s, |s.switchers|);
    var n := Exec(order, s, ready);
    var sets := FirstSet(order, n, |s.switchers|);
    turns := ready + sets;
    ExecMore(order, s, ready, sets);
    AllDoneLeavesNamedDefaults(order, s, turns);
    forall j | 0 <= j < |s.switchers| ensures s.switchers[j].name in Defaults(Exec(order, s, turns).classes) {
      assert n.switchers[j].name == s.switchers[j].name;
    }
  }

  /** Racing callers of existing classes are sure to leave exactly one default, whatever the
      interleaving, if and only if they all name the same class. */
  lemma OneDefaultIffSameName(order: seq<string>, s: System)
    requires Starting(order, s) && s.switchers != []
    requires forall j :: 0 <= j < |s.switchers| ==> s.switchers[j].name in s.classes
    ensures (forall turns :: AllDone(Exec(order, s, turns)) ==> |Defaults(Exec(order, s, turns).classes)| == 1) <==>
            (forall i, j :: 0 <= i < j < |s.switchers| ==> s.switchers[i].name == s.switchers[j].name)
  {
    if forall i, j :: 0 <= i < j < |s.switchers| ==> s.switchers[i].name == s.switchers[j].name {
      forall turns | AllDone(Exec(order, s, turns)) ensures |Defaults(Exec(order, s, turns).classes)| == 1 {
        SameNameLeavesOneDefault(order, s, turns, s.switchers[0].name);
      }
    } else {
      var i, j :| 0 <= i < j < |s.switchers| && s.switchers[i].name != s.switchers[j].name;
      var turns := RaceCanLeaveAllNames(order, s);
      var end := Defaults(Exec(order, s, turns).classes);
      TwoMembers(end, s.switchers[i].name, s.switchers[j].name);
      assert AllDone(Exec(order, s, turns)) && |end| != 1;
    }
  }

  lemma TwoMembers<T>(s: set<T>, x: T, y: T)
    requires x in s && y in s && x != y
    ensures |s| >= 2
  {
    assert s == {x} + (s - {x}) && y in s - {x};
  }

  /** Two callers, two classes, two defaults. */
  lemma RaceCanLeaveTwoDefaults()
    ensures exists order: seq<string>, s: System, turns: seq<Turn> ::
              && Starting(order, s) && |s.switchers| == 2 && AllDone(Exec(order, s, turns))
              && Defaults(Exec(order, s, turns).classes) == {"fast", "slow"}
  {
    hide Exec, Defaults;
    var order := ["fast", "slow"];
    var s := System(map["fast" := map[], "slow" := map[]], [Switcher("fast", Listing), Switcher("slow", Listing)]);
    var turns := RaceCanLeaveAllNames(order, s);
    assert s.switchers[0].name == "fast" && s.switchers[1].name == "slow";
    assert Named(s, "fast") && Named(s, "slow");
    assert Defaults(Exec(order, s, turns).classes) == {"fast", "slow"};
  }

  // ---------------------------------------------------------------- one caller alone

  /** A caller alone is the helper: it is somewhere in the helper's own series of calls. */
  ghost predicate AsHelper(order: seq<string>, c: Classes, name: string, now: Classes, stage: Stage)
  {
    var names := Pick(order, Marked(c));
    match stage
    case Listing => now == c
    case Disabling(todo) => exists k :: 0 <= k < |names| && todo == names[k..] && now == Cleared(c, names[..k])
    case Setting => Disabled(order, c, names, now, None)
    case Done => name in c && now == MadeDefault(Cleared(c, names), name)
    case Failed(asked) =>
      if asked then now == Cleared(c, names) || now == MadeDefault(Cleared(c, names), name)
      else exists issued :: Disabled(order, c, issued, now, Some(Unavailable))
  }

  lemma AloneStep(order: seq<string>, c: Classes, w: Switcher, now: Classes, fault: Fault)
    requires AsHelper(order, c, w.name, now, w.stage)
    ensures AsHelper(order, c, w.name, CallOf(order, now, w, fault).0, CallOf(order, now, w, fault).1)
  {
    hide Pick, Marked, Defaults;
    var names := Pick(order, Marked(c));
    match w.stage
    case Listing =>
      assert names[..0] == [] && names[0..] == names;
      assert Disabled(order, c, [], c, Some(Unavailable));
    case Disabling(todo) =>
      var k :| 0 <= k < |names| && todo == names[k..] && now == Cleared(c, names[..k]);
      AloneClears(order, c, names, k, now, w, fault);
    case Setting =>
    case Done =>
    case Failed(_) =>
  }

  lemma AloneClears(order: seq<string>, c: Classes, names: seq<string>, k: nat, now: Classes, w: Switcher, fault: Fault)
    requires names == Pick(order, Marked(c)) && k < |names|
    requires w.stage == Disabling(names[k..]) && now == Cleared(c, names[..k])
    ensures AsHelper(order, c, w.name, CallOf(order, now, w, fault).0, CallOf(order, now, w, fault).1)
  {
    hide Pick, Marked, Defaults;
    var p := Annotate(DEFAULT_CLASS, "false");
    assert names[k..][1..] == names[k + 1..] && names[..k + 1][..k] == names[..k];
    var one := [names[k]];
    assert one[..0] == [];
    assert Cleared(now, one) == Patched(PatchedAll(now, [], p), names[k], p);
    assert Cleared(now, one) == Cleared(c, names[..k + 1]);
    if fault.Fine? {
      if k + 1 == |names| {
        assert names[..k + 1] == names;
      }
    } else {
      assert Disabled(order, c, names[..k + 1],
                      if fault == Lost(false) then now else Cleared(now, one), Some(Unavailable));
    }
  }

  /** The states a lone caller passes through are those the helper's two methods promise. */
  lemma {:induction false} AloneIsHelper(order: seq<string>, c: Classes, name: string, s: System, turns: seq<Turn>)
    requires |s.switchers| == 1 && s.switchers[0].name == name
             && AsHelper(order, c, name, s.classes, s.switchers[0].stage)
    ensures var n := Exec(order, s, turns);
            |n.switchers| == 1 && AsHelper(order, c, name, n.classes, n.switchers[0].stage)
    decreases |turns|
  {
    hide AsHelper, CallOf;
    if turns != [] {
      AloneStep(order, c, s.switchers[0], s.classes, turns[0].fault);
      AloneIsHelper(order, c, name, Step(order, s, turns[0]), turns[1..]);
    }
  }
}
