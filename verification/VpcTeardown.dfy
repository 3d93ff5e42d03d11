/** The teardown procedure itself: four loops of calls that may each fail, then the VPC. */
module VpcTeardown {
  import opened Listings
  import opened VpcPlan
  import opened VpcTheorems
  import opened Wrappers

  /** `Refused` is the server's answer when its rules forbid the call; a call that fails
      for any other reason may or may not have taken effect. */
  datatype CloudError = Unavailable | Refused

  datatype AssociationView = AssociationView(id: Id, main: Option<bool>)
  datatype TableView = TableView(id: Id, associations: seq<AssociationView>)
  datatype AclView = AclView(id: Id, isDefault: Option<bool>)

  function AssociationViews(c: Cloud, ids: seq<Id>): (r: seq<AssociationView>)
    ensures |r| == |ids|
    ensures forall i :: 0 <= i < |ids| ==> r[i].id == ids[i] && (r[i].main == Some(true) <==> IsMain(c, ids[i]))
  {
    seq(|ids|, i requires 0 <= i < |ids| =>
      AssociationView(ids[i], if ids[i] in c.associations then c.associations[ids[i]].main else None))
  }

  function TableViews(c: Cloud, order: seq<Id>, ids: seq<Id>): (r: seq<TableView>)
    ensures |r| == |ids|
    ensures forall i :: 0 <= i < |ids| ==>
              r[i].id == ids[i] && r[i].associations == AssociationViews(c, Pick(order, AssociationsOf(c, ids[i])))
  {
    seq(|ids|, i requires 0 <= i < |ids| =>
      TableView(ids[i], AssociationViews(c, Pick(order, AssociationsOf(c, ids[i])))))
  }

  function AclViews(c: Cloud, ids: seq<Id>): (r: seq<AclView>)
    ensures |r| == |ids|
    ensures forall i :: 0 <= i < |ids| ==> r[i].id == ids[i] && (r[i].isDefault == Some(true) <==> IsDefault(c, ids[i]))
  {
    seq(|ids|, i requires 0 <= i < |ids| =>
      AclView(ids[i], if ids[i] in c.acls then c.acls[ids[i]].isDefault else None))
  }

  /** How a list of calls was worked off from `c`: `done` are the calls issued, in order.
      All but the last took effect; the last did if it succeeded, and may have if it
      failed. The server never had cause to refuse one. */
  ghost predicate Ran(c: Cloud, calls: seq<Call>, done: seq<Call>, now: Cloud, err: Option<CloudError>)
  {
    && done <= calls && Legal(c, done)
    && (err.None? ==> done == calls && now == Run(c, calls))
    && (err.Some? ==>
       err.value != Refused && (now == Run(c, done) || (done != [] && now == Run(c, done[..|done| - 1]))))
  }

  /** Part of a list of calls is done and took effect; the rest of it is still legal. */
  ghost predicate Midway(c: Cloud, calls: seq<Call>, done: seq<Call>, rest: seq<Call>, now: Cloud)
  {
    calls == done + rest && Legal(c, calls) && now == Run(c, done)
  }

  lemma MidwayStart(c: Cloud, calls: seq<Call>)
    requires Legal(c, calls)
    ensures Midway(c, calls, [], calls, c)
  {
    assert [] + calls == calls;
  }

  /** The next call is one the server accepts: if it succeeds, the work goes on behind it;
      if it fails, the work stops there. */
  lemma MidwayNext(c: Cloud, calls: seq<Call>, done: seq<Call>, x: Call, rest: seq<Call>, before: Cloud,
        now: Cloud, err: Option<CloudError>)
    requires Midway(c, calls, done, [x] + rest, before)
    requires !Allowed(before, x) ==> err == Some(Refused) && now == before
    requires Allowed(before, x) ==>
               || (err == None && now == Effect(before, x))
               || (err == Some(Unavailable) && (now == before || now == Effect(before, x)))
    ensures err != Some(Refused) && (err.None? ==> Midway(c, calls, done + [x], rest, now))
    ensures err.Some? ==> Ran(c, calls, done + [x], now, err)
  {
    assert calls == (done + [x]) + rest;
    assert (done + [x])[..|done|] == done;
    RunConcat(c, done + [x], rest);
    RunConcat(c, done, [x]);
    OneCall(Run(c, done), x);
  }

  lemma MidwayStopped(c: Cloud, calls: seq<Call>, done: seq<Call>, rest: seq<Call>, now: Cloud)
    requires Midway(c, calls, done, rest, now)
    ensures Ran(c, calls, done, now, Some(Unavailable))
    ensures rest == [] ==> Ran(c, calls, done, now, None)
  {
    RunConcat(c, done, rest);
  }

  lemma RanThen(c: Cloud, a: seq<Call>, b: seq<Call>, mid: Cloud, done: seq<Call>, now: Cloud, err: Option<CloudError>)
    requires Legal(c, a) && mid == Run(c, a) && Ran(mid, b, done, now, err)
    ensures Ran(c, a + b, a + done, now, err)
  {
    hide Run, Legal;
    RunConcat(c, a, done);
    RunConcat(c, a, b);
    assert a + b == (a + done) + b[|done|..];
    if done != [] {
      assert (a + done)[..|a + done| - 1] == a + done[..|done| - 1];
      RunConcat(c, a, done[..|done| - 1]);
    }
  }

  lemma RanExtends(c: Cloud, a: seq<Call>, b: seq<Call>, done: seq<Call>, now: Cloud, err: Option<CloudError>)
    requires Ran(c, a, done, now, err) && err.Some?
    ensures Ran(c, a + b, done, now, err)
  {}

  /** A subnet whose turn is still to come has all its interfaces. */
  lemma SubnetAhead(c: Cloud, order: seq<Id>, xs: seq<Id>, i: nat, now: Cloud)
    requires Lists(order, c) && NoDup(xs) && i < |xs|
    requires Legal(c, SubnetCalls(c, order, xs[..i])) && now == Run(c, SubnetCalls(c, order, xs[..i]))
    ensures InterfacesOf(now, xs[i]) == InterfacesOf(c, xs[i])
  {
    var done := SubnetCalls(c, order, xs[..i]);
    RunIsWithout(c, done);
    assert xs[i] !in xs[..i];
    forall e | e in InterfacesOf(c, xs[i]) ensures DeleteInterface(e) !in done {
      SubnetCallsAre(c, order, xs[..i], DeleteInterface(e));
    }
  }

  // ---------------------------------------------------------------- stage after stage

  lemma {:induction false} FlatSame(xs: seq<Id>, f: Item, g: Item)
    requires forall t :: t in xs ==> Each(f, t) == Each(g, t)
    ensures Flat(xs, f) == Flat(xs, g)
  {
    if xs != [] {
      assert xs[0] in xs;
      FlatSame(xs[1..], f, g);
    }
  }

  lemma TableCallsSame(c: Cloud, d: Cloud, order: seq<Id>, xs: seq<Id>)
    requires d.associations == c.associations
    ensures TableCalls(d, order, xs) == TableCalls(c, order, xs)
  {
    hide Flat, Pick;
    forall t ensures Each(ForTable(d, order), t) == Each(ForTable(c, order), t) {
      assert AssociationsOf(d, t) == AssociationsOf(c, t);
      FlatSame(Pick(order, AssociationsOf(c, t)), ForAssociation(d), ForAssociation(c));
    }
    FlatSame(xs, ForTable(d, order), ForTable(c, order));
  }

  lemma AclCallsSame(c: Cloud, d: Cloud, xs: seq<Id>)
    requires d.acls == c.acls
    ensures AclCalls(d, xs) == AclCalls(c, xs)
  {
    FlatSame(xs, ForAcl(d), ForAcl(c));
  }

  lemma SubnetCallsSame(c: Cloud, d: Cloud, order: seq<Id>, xs: seq<Id>)
    requires d.interfaces == c.interfaces
    ensures SubnetCalls(d, order, xs) == SubnetCalls(c, order, xs)
  {
    hide Flat, Pick;
    forall s ensures Each(ForSubnet(d, order), s) == Each(ForSubnet(c, order), s) {
      assert InterfacesOf(d, s) == InterfacesOf(c, s);
    }
    FlatSame(xs, ForSubnet(d, order), ForSubnet(c, order));
  }

  lemma RunShrinks(c: Cloud, calls: seq<Call>, order: seq<Id>)
    requires Legal(c, calls) && Lists(order, c)
    ensures Lists(order, Run(c, calls))
  {
    RunIsWithout(c, calls);
  }

  /** What each stage finds is what the first listing would have shown. */
  lemma AfterStage1(c: Cloud, order: seq<Id>, vpc: Id)
    requires Lists(order, c)
    ensures var d := Run(c, Stage1(c, order, vpc));
            Legal(c, Stage1(c, order, vpc)) && Lists(order, d) && Stage2(d, order, vpc) == Stage2(c, order, vpc)
  {
    hide Flat, Pick, Lists, Legal, Run;
    Stage1Legal(c, order, vpc);
    var d := Run(c, Stage1(c, order, vpc));
    RunShrinks(c, Stage1(c, order, vpc), order);
    assert TablesOf(d, vpc) == TablesOf(c, vpc);
    TableCallsSame(c, d, order, Pick(order, TablesOf(c, vpc)));
  }

  lemma AfterStage2(c: Cloud, order: seq<Id>, vpc: Id)
    requires Lists(order, c)
    ensures var calls := Stage1(c, order, vpc) + Stage2(c, order, vpc);
            var d := Run(c, calls);
            Legal(c, calls) && Lists(order, d) && Stage3(d, order, vpc) == Stage3(c, order, vpc)
  {
    hide Flat, Pick, Lists, Legal, Run;
    var s1, s2 := Stage1(c, order, vpc), Stage2(c, order, vpc);
    Stage1Legal(c, order, vpc);
    Stage2Legal(c, Run(c, s1), order, vpc);
    RunConcat(c, s1, s2);
    var d := Run(c, s1 + s2);
    RunShrinks(c, s1 + s2, order);
    assert d.acls == c.acls;
    assert AclsOf(d, vpc) == AclsOf(c, vpc);
    AclCallsSame(c, d, Pick(order, AclsOf(c, vpc)));
  }

  lemma AfterStage3(c: Cloud, order: seq<Id>, vpc: Id)
    requires Lists(order, c)
    ensures var calls := Stage1(c, order, vpc) + Stage2(c, order, vpc) + Stage3(c, order, vpc);
            var d := Run(c, calls);
            Legal(c, calls) && Lists(order, d) && Stage4(d, order, vpc) == Stage4(c, order, vpc)
  {
    hide Flat, Pick, Lists, Legal, Run;
    var s1, s2, s3 := Stage1(c, order, vpc), Stage2(c, order, vpc), Stage3(c, order, vpc);
    Stage1Legal(c, order, vpc);
    Stage2Legal(c, Run(c, s1), order, vpc);
    RunConcat(c, s1, s2);
    Stage3Legal(c, Run(c, s1 + s2), order, vpc);
    RunConcat(c, s1 + s2, s3);
    var d := Run(c, s1 + s2 + s3);
    RunShrinks(c, s1 + s2 + s3, order);
    assert d.subnets == c.subnets && d.interfaces == c.interfaces;
    assert SubnetsOf(d, vpc) == SubnetsOf(c, vpc);
    SubnetCallsSame(c, d, order, Pick(order, SubnetsOf(c, vpc)));
  }

  /** What one teardown call does, whenever and however it ends. For a VPC that exists, the
      calls issued are an initial run of the plan, all of it on success, and the server
      never had cause to refuse one; a success leaves exactly the torn-down account. The
      VPC's own turn comes only when it is bare. Nothing else is ever touched. */
  ghost predicate TeardownPromise(c: Cloud, order: seq<Id>, vpc: Id, done: seq<Call>, now: Cloud,
        err: Option<CloudError>)
  {
    && done <= Plan(c, order, vpc)
    && OthersKept(c, now, vpc)
    && (vpc in c.vpcs ==> Ran(c, Plan(c, order, vpc), done, now, err))
    && (vpc in c.vpcs && err.None? ==> now == TornDown(c, vpc))
    && (vpc !in c.vpcs ==> err.Some?)
    && (DeleteVpc(vpc) in done ==> Bare(Run(c, done[..|done| - 1]), vpc) && done == Plan(c, order, vpc))
  }

  lemma RanIsPromise(c: Cloud, order: seq<Id>, vpc: Id, done: seq<Call>, now: Cloud, err: Option<CloudError>)
    requires Lists(order, c) && Ran(c, Clearing(c, order, vpc), done, now, err) && err.Some?
    ensures TeardownPromise(c, order, vpc, done, now, err)
  {
    hide Legal, Run, Lists, OthersKept, Clearing, Stage1, Stage2, Stage3, Stage4;
    var calls := Clearing(c, order, vpc);
    RanExtends(c, calls, [DeleteVpc(vpc)], done, now, err);
    ClearingFrame(c, order, vpc, |done|);
    if done != [] {
      ClearingFrame(c, order, vpc, |done| - 1);
      assert done[..|done| - 1] == calls[..|done| - 1];
    }
    assert calls[..|done|] == done;
    PlanTargets(c, order, vpc, DeleteVpc(vpc));
    assert DeleteVpc(vpc) in done ==> DeleteVpc(vpc) in calls;
  }

  lemma ClearingFrame(c: Cloud, order: seq<Id>, vpc: Id, k: nat)
    requires Lists(order, c) && k <= |Clearing(c, order, vpc)|
    ensures OthersKept(c, Run(c, Clearing(c, order, vpc)[..k]), vpc)
  {
    TeardownFrame(c, order, vpc, k);
    assert Plan(c, order, vpc)[..k] == Clearing(c, order, vpc)[..k];
  }

  /** The last call, on a bare VPC. */
  lemma LastCallPromise(c: Cloud, order: seq<Id>, vpc: Id, now: Cloud, err: Option<CloudError>)
    requires Lists(order, c)
    requires var before := Run(c, Clearing(c, order, vpc));
             && (!Allowed(before, DeleteVpc(vpc)) ==> err == Some(Refused) && now == before)
             && (Allowed(before, DeleteVpc(vpc)) ==>
                   || (err == None && now == Effect(before, DeleteVpc(vpc)))
                   || (err == Some(Unavailable) && (now == before || now == Effect(before, DeleteVpc(vpc)))))
    ensures TeardownPromise(c, order, vpc, Plan(c, order, vpc), now, err)
  {
    hide Legal, Run, Lists, OthersKept, Clearing, TornDown, Bare;
    var calls, plan, x := Clearing(c, order, vpc), Plan(c, order, vpc), DeleteVpc(vpc);
    ClearingBares(c, order, vpc);
    ClearingLegal(c, order, vpc);
    ClearingFrame(c, order, vpc, |calls|);
    assert calls[..|calls|] == calls && plan[..|plan| - 1] == calls && plan[..|plan|] == plan;
    ClearingKeepsVpc(c, order, vpc);
    if vpc in c.vpcs {
      PlanLegal(c, order, vpc);
      RunConcat(c, calls, [x]);
      OneCall(Run(c, calls), x);
      TeardownFrame(c, order, vpc, |plan|);
      PlanTearsDown(c, order, vpc);
    }
  }

  // ---------------------------------------------------------------- failing again and again

  datatype Attempt = Attempt(order: seq<Id>, done: seq<Call>, now: Cloud, error: CloudError)

  /** Teardowns of a VPC that exists, one after the other, each of which failed. */
  ghost predicate FailedAttempts(c: Cloud, vpc: Id, attempts: seq<Attempt>)
    decreases |attempts|
  {
    attempts == [] ||
    (var a := attempts[0];
     && vpc in c.vpcs && Lists(a.order, c)
     && TeardownPromise(c, a.order, vpc, a.done, a.now, Some(a.error))
     && FailedAttempts(a.now, vpc, attempts[1..]))
  }

  function LeftAfter(c: Cloud, attempts: seq<Attempt>): Cloud
  {
    if attempts == [] then c else attempts[|attempts| - 1].now
  }

  lemma TornDownTwice(c: Cloud, vpc: Id)
    ensures TornDown(TornDown(c, vpc), vpc) == TornDown(c, vpc)
  {
    assert forall m: map<Id, Id> :: m - {} == m;
  }

  lemma FrontShrinks(c: Cloud, order: seq<Id>, vpc: Id, k: nat)
    requires Lists(order, c) && k < |Plan(c, order, vpc)|
    ensures GatewaysOf(Run(c, Plan(c, order, vpc)[..k]), vpc) <= GatewaysOf(c, vpc)
  {
    PlanLegalUpTo(c, order, vpc, k);
    RunIsWithout(c, Plan(c, order, vpc)[..k]);
  }

  /** One failed teardown leaves what a later one will clear, and one gateway at most. */
  lemma OneFailure(c: Cloud, vpc: Id, a: Attempt) returns (leaked: set<Id>)
    requires vpc in c.vpcs && Lists(a.order, c) && TeardownPromise(c, a.order, vpc, a.done, a.now, Some(a.error))
    ensures |leaked| <= 1 && leaked <= GatewaysOf(c, vpc) && GatewaysOf(a.now, vpc) <= GatewaysOf(c, vpc)
    ensures TornDown(a.now, vpc) == WithDetached(TornDown(c, vpc), leaked)
  {
    hide Lists, Plan, Run, TornDown, WithDetached, OthersKept, Bare, Pick, Legal;
    var plan := Plan(c, a.order, vpc);
    var k := if a.now == Run(c, a.done) then |a.done| else |a.done| - 1;
    assert a.done == plan[..|a.done|];
    assert k < |a.done| ==> a.done[..k] == plan[..k];
    assert a.now == Run(c, plan[..k]);
    if k < |plan| {
      AtMostOneLeaked(c, a.order, vpc, k);
      TornDownAfterFront(c, a.order, vpc, k);
      FrontShrinks(c, a.order, vpc, k);
      leaked := Leaked(c, vpc, plan[..k]);
    } else {
      assert plan[..k] == plan;
      PlanTearsDown(c, a.order, vpc);
      TornDownTwice(c, vpc);
      NothingDetached(c, vpc);
      leaked := {};
    }
  }

  lemma NothingDetached(c: Cloud, vpc: Id)
    ensures WithDetached(TornDown(c, vpc), {}) == TornDown(c, vpc)
    ensures GatewaysOf(TornDown(c, vpc), vpc) == {}
  {
    LeakedIsGone(c, vpc, {});
  }

  lemma DetachedTogether(c: Cloud, a: set<Id>, b: set<Id>)
    ensures WithDetached(WithDetached(c, a), b) == WithDetached(c, a + b)
    ensures |a + b| <= |a| + |b|
  {
  }

  lemma {:induction false} FailuresLeak(c: Cloud, vpc: Id, attempts: seq<Attempt>) returns (leaked: set<Id>)
    requires FailedAttempts(c, vpc, attempts)
    ensures |leaked| <= |attempts| && leaked <= GatewaysOf(c, vpc)
    ensures TornDown(LeftAfter(c, attempts), vpc) == WithDetached(TornDown(c, vpc), leaked)
    decreases |attempts|
  {
    hide TeardownPromise, TornDown, WithDetached, GatewaysOf, Lists;
    if attempts == [] {
      leaked := {};
      NothingDetached(c, vpc);
    } else {
      var a := attempts[0];
      var first := OneFailure(c, vpc, a);
      var later := FailuresLeak(a.now, vpc, attempts[1..]);
      assert LeftAfter(c, attempts) == LeftAfter(a.now, attempts[1..]);
      DetachedTogether(TornDown(c, vpc), first, later);
      leaked := first + later;
    }
  }

  /** Any number of failed teardowns, then one that succeeds: the account is torn down, but
      for at most one detached gateway per failure. */
  lemma FailuresThenSuccess(c: Cloud, vpc: Id, attempts: seq<Attempt>, order: seq<Id>, done: seq<Call>, now: Cloud)
      returns (leaked: set<Id>)
    requires FailedAttempts(c, vpc, attempts)
    requires TeardownPromise(LeftAfter(c, attempts), order, vpc, done, now, None)
    ensures |leaked| <= |attempts| && leaked <= GatewaysOf(c, vpc)
    ensures now == WithDetached(TornDown(c, vpc), leaked)
  {
    hide Ran, OthersKept, Bare, Plan, TornDown, WithDetached, GatewaysOf;
    leaked := FailuresLeak(c, vpc, attempts);
  }

  // ---------------------------------------------------------------- the helper

  class Ec2Helper {
    var cloud: Cloud
    ghost var log: seq<Call>
    ghost var faults: nat  // how many remote calls have failed for reasons of their own
    const reliable: bool  // no remote call fails for a reason of its own
    const order: seq<Id>

    /** One destructive call. */
    method Do(call: Call) returns (err: Option<CloudError>)
      modifies this
      ensures log == old(log) + [call]
      ensures faults == old(faults) + if err == Some(Unavailable) then 1 else 0
      ensures reliable ==> faults == old(faults)
      ensures !Allowed(old(cloud), call) ==> err == Some(Refused) && cloud == old(cloud)
      ensures Allowed(old(cloud), call) ==>
                || (err == None && cloud == Effect(old(cloud), call))
                || (err == Some(Unavailable) && (cloud == old(cloud) || cloud == Effect(old(cloud), call)))
    {
      log := log + [call];
      if !Allowed(cloud, call) {
        return Some(Refused);
      }
      var reached: bool := *;
      var answered: bool := *;
      if reached || reliable {
        cloud := Effect(cloud, call);
      }
      if (reached && answered) || reliable {
        return None;
      }
      faults := faults + 1;
      return Some(Unavailable);
    }

    method DescribeInternetGateways(vpc: Id) returns (r: Option<seq<Id>>)
      modifies this`faults
      ensures faults == old(faults) + if r.None? then 1 else 0
      ensures reliable ==> faults == old(faults)
      ensures r.Some? ==> r.value == Pick(order, GatewaysOf(cloud, vpc))
    {
      var answered: bool := *;
      if answered || reliable {
        return Some(Pick(order, GatewaysOf(cloud, vpc)));
      }
      faults := faults + 1;
      return None;
    }

    method DescribeRouteTables(vpc: Id) returns (r: Option<seq<TableView>>)
      modifies this`faults
      ensures faults == old(faults) + if r.None? then 1 else 0
      ensures reliable ==> faults == old(faults)
      ensures r.Some? ==> r.value == TableViews(cloud, order, Pick(order, TablesOf(cloud, vpc)))
    {
      var answered: bool := *;
      if answered || reliable {
        return Some(TableViews(cloud, order, Pick(order, TablesOf(cloud, vpc))));
      }
      faults := faults + 1;
      return None;
    }

    method DescribeNetworkAcls(vpc: Id) returns (r: Option<seq<AclView>>)
      modifies this`faults
      ensures faults == old(faults) + if r.None? then 1 else 0
      ensures reliable ==> faults == old(faults)
      ensures r.Some? ==> r.value == AclViews(cloud, Pick(order, AclsOf(cloud, vpc)))
    {
      var answered: bool := *;
      if answered || reliable {
        return Some(AclViews(cloud, Pick(order, AclsOf(cloud, vpc))));
      }
      faults := faults + 1;
      return None;
    }

    method DescribeSubnets(vpc: Id) returns (r: Option<seq<Id>>)
      modifies this`faults
      ensures faults == old(faults) + if r.None? then 1 else 0
      ensures reliable ==> faults == old(faults)
      ensures r.Some? ==> r.value == Pick(order, SubnetsOf(cloud, vpc))
    {
      var answered: bool := *;
      if answered || reliable {
        return Some(Pick(order, SubnetsOf(cloud, vpc)));
      }
      faults := faults + 1;
      return None;
    }

    method DescribeNetworkInterfaces(subnet: Id) returns (r: Option<seq<Id>>)
      modifies this`faults
      ensures faults == old(faults) + if r.None? then 1 else 0
      ensures reliable ==> faults == old(faults)
      ensures r.Some? ==> r.value == Pick(order, InterfacesOf(cloud, subnet))
    {
      var answered: bool := *;
      if answered || reliable {
        return Some(Pick(order, InterfacesOf(cloud, subnet)));
      }
      faults := faults + 1;
      return None;
    }

    method DetachInternetGateways(vpc: Id) returns (err: Option<CloudError>, ghost done: seq<Call>)
      requires Lists(order, cloud)
      modifies this
      ensures log == old(log) + done
      ensures Ran(old(cloud), Stage1(old(cloud), order, vpc), done, cloud, err)
      ensures if err.Some? then faults > old(faults) else faults == old(faults)
      ensures reliable ==> faults == old(faults)
    {
      hide *;
      ghost var c, calls, each := cloud, Stage1(cloud, order, vpc), ForGateway(vpc);
      done := [];
      StageStarts(c, order, vpc);
      var listed := DescribeInternetGateways(vpc);
      if listed.None? {
        MidwayStopped(c, calls, [], calls, cloud);
        return Some(Unavailable), [];
      }
      var gateways := listed.value;
      for i := 0 to |gateways|
        invariant log == old(log) + done && faults == old(faults)
        invariant Midway(c, calls, done, Flat(gateways[i..], each), cloud)
      {
        var g := gateways[i];
        GatewayTurn(gateways, vpc, i);
        ghost var before, rest := cloud, Flat(gateways[i + 1..], each);
        err := Do(Detach(g, vpc));
        MidwayNext(c, calls, done, Detach(g, vpc), [DeleteGateway(g)] + rest, before, cloud, err);
        done := done + [Detach(g, vpc)];
        if err.Some? {
          return;
        }
        before := cloud;
        err := Do(DeleteGateway(g));
        MidwayNext(c, calls, done, DeleteGateway(g), rest, before, cloud, err);
        done := done + [DeleteGateway(g)];
        if err.Some? {
          return;
        }
      }
      FlatEnds(gateways, each);
      MidwayStopped(c, calls, done, [], cloud);
      return None, done;
    }

    method DisassociateRouteTables(vpc: Id) returns (err: Option<CloudError>, ghost done: seq<Call>)
      requires Lists(order, cloud)
      modifies this
      ensures log == old(log) + done
      ensures Ran(old(cloud), Stage2(old(cloud), order, vpc), done, cloud, err)
      ensures if err.Some? then faults > old(faults) else faults == old(faults)
      ensures reliable ==> faults == old(faults)
    {
      hide *;
      ghost var c, calls, each, one := cloud, Stage2(cloud, order, vpc), ForTable(cloud, order), ForAssociation(cloud);
      done := [];
      StageStarts(c, order, vpc);
      var listed := DescribeRouteTables(vpc);
      if listed.None? {
        MidwayStopped(c, calls, [], calls, cloud);
        return Some(Unavailable), [];
      }
      var tables := listed.value;
      ghost var ids := Pick(order, TablesOf(c, vpc));
      for i := 0 to |tables|
        invariant log == old(log) + done && faults == old(faults)
        invariant Midway(c, calls, done, Flat(ids[i..], each), cloud)
      {
        var rt := tables[i];
        TableTurn(c, order, ids, i);
        ghost var here, rest := Pick(order, AssociationsOf(c, ids[i])), Flat(ids[i + 1..], each);
        for j := 0 to |rt.associations|
          invariant log == old(log) + done && faults == old(faults)
          invariant Midway(c, calls, done, Flat(here[j..], one) + rest, cloud)
        {
          var assoc := rt.associations[j];
          AssociationTurn(c, here, j, rest);
          if assoc.main.Some? && assoc.main.value {
            continue;
          }
          ghost var before, after := cloud, Flat(here[j + 1..], one) + rest;
          err := Do(Disassociate(assoc.id));
          MidwayNext(c, calls, done, Disassociate(assoc.id), after, before, cloud, err);
          done := done + [Disassociate(assoc.id)];
          if err.Some? {
            return;
          }
        }
        NothingLeft(here, one, rest);
      }
      FlatEnds(ids, each);
      MidwayStopped(c, calls, done, [], cloud);
      return None, done;
    }

    method DeleteNetworkACLs(vpc: Id) returns (err: Option<CloudError>, ghost done: seq<Call>)
      requires Lists(order, cloud)
      modifies this
      ensures log == old(log) + done
      ensures Ran(old(cloud), Stage3(old(cloud), order, vpc), done, cloud, err)
      ensures if err.Some? then faults > old(faults) else faults == old(faults)
      ensures reliable ==> faults == old(faults)
    {
      hide *;
      ghost var c, calls, each := cloud, Stage3(cloud, order, vpc), ForAcl(cloud);
      done := [];
      StageStarts(c, order, vpc);
      var listed := DescribeNetworkAcls(vpc);
      if listed.None? {
        MidwayStopped(c, calls, [], calls, cloud);
        return Some(Unavailable), [];
      }
      var acls := listed.value;
      ghost var ids := Pick(order, AclsOf(c, vpc));
      for i := 0 to |acls|
        invariant log == old(log) + done && faults == old(faults)
        invariant Midway(c, calls, done, Flat(ids[i..], each), cloud)
      {
        var acl := acls[i];
        AclTurn(c, ids, i);
        if acl.isDefault.Some? && acl.isDefault.value {
          continue;
        }
        ghost var before, rest := cloud, Flat(ids[i + 1..], each);
        err := Do(DeleteAcl(acl.id));
        MidwayNext(c, calls, done, DeleteAcl(acl.id), rest, before, cloud, err);
        done := done + [DeleteAcl(acl.id)];
        if err.Some? {
          return;
        }
      }
      FlatEnds(ids, each);
      MidwayStopped(c, calls, done, [], cloud);
      return None, done;
    }

    method DeleteSubnets(vpc: Id) returns (err: Option<CloudError>, ghost done: seq<Call>)
      requires Lists(order, cloud)
      modifies this
      ensures log == old(log) + done
      ensures Ran(old(cloud), Stage4(old(cloud), order, vpc), done, cloud, err)
      ensures if err.Some? then faults > old(faults) else faults == old(faults)
      ensures reliable ==> faults == old(faults)
    {
      hide *;
      ghost var c, calls, each, one := cloud, Stage4(cloud, order, vpc), ForSubnet(cloud, order), ForInterface;
      done := [];
      StageStarts(c, order, vpc);
      var listed := DescribeSubnets(vpc);
      if listed.None? {
        MidwayStopped(c, calls, [], calls, cloud);
        return Some(Unavailable), [];
      }
      var subnets := listed.value;
      for i := 0 to |subnets|
        invariant log == old(log) + done && faults == old(faults)
        invariant Midway(c, calls, done, Flat(subnets[i..], each), cloud)
      {
        var subnet := subnets[i];
        SubnetTurn(c, order, vpc, i, done, cloud);
        var enis := DescribeNetworkInterfaces(subnet);
        if enis.None? {
          MidwayStopped(c, calls, done, Flat(subnets[i..], each), cloud);
          return Some(Unavailable), done;
        }
        var here := enis.value;
        ghost var before, later := cloud, Flat(subnets[i + 1..], each);
        ghost var rest := [DeleteSubnet(subnet)] + later;
        for j := 0 to |here|
          invariant log == old(log) + done && faults == old(faults)
          invariant Midway(c, calls, done, Flat(here[j..], one) + rest, cloud)
        {
          InterfaceTurn(here, j, rest);
          ghost var after := Flat(here[j + 1..], one) + rest;
          before := cloud;
          err := Do(DeleteInterface(here[j]));
          MidwayNext(c, calls, done, DeleteInterface(here[j]), after, before, cloud, err);
          done := done + [DeleteInterface(here[j])];
          if err.Some? {
            return;
          }
        }
        NothingLeft(here, one, rest);
        before := cloud;
        err := Do(DeleteSubnet(subnet));
        MidwayNext(c, calls, done, DeleteSubnet(subnet), later, before, cloud, err);
        done := done + [DeleteSubnet(subnet)];
        if err.Some? {
          return;
        }
      }
      FlatEnds(subnets, each);
      MidwayStopped(c, calls, done, [], cloud);
      return None, done;
    }

    /** Tear a VPC down and delete it. */
    method DeleteVpc(vpc: Id) returns (err: Option<CloudError>, ghost done: seq<Call>)
      requires Lists(order, cloud)
      modifies this
      ensures log == old(log) + done
      ensures TeardownPromise(old(cloud), order, vpc, done, cloud, err)
      ensures reliable ==> faults == old(faults)
      ensures faults == old(faults) ==> err == if vpc in old(cloud).vpcs then None else Some(Refused)
    {
      hide Legal, Run, Ran, Lists, Pick, Allowed, Effect, TeardownPromise, Stage1, Stage2, Stage3, Stage4, Upto,
          OthersKept, Bare, Plan;
      ghost var c := cloud;
      BeforeStages(c, order, vpc);
      err, done := DetachInternetGateways(vpc);
      if err.Some? {
        StageFailed(c, order, vpc, 0, c, done, done, cloud, err);
        return;
      }
      StagePassed(c, order, vpc, 0, c, done, done, cloud);

      ghost var more, mid := [], cloud;
      err, more := DisassociateRouteTables(vpc);
      done := done + more;
      if err.Some? {
        StageFailed(c, order, vpc, 1, mid, more, done, cloud, err);
        return;
      }
      StagePassed(c, order, vpc, 1, mid, more, done, cloud);

      mid := cloud;
      err, more := DeleteNetworkACLs(vpc);
      done := done + more;
      if err.Some? {
        StageFailed(c, order, vpc, 2, mid, more, done, cloud, err);
        return;
      }
      StagePassed(c, order, vpc, 2, mid, more, done, cloud);

      mid := cloud;
      err, more := DeleteSubnets(vpc);
      done := done + more;
      if err.Some? {
        StageFailed(c, order, vpc, 3, mid, more, done, cloud, err);
        return;
      }
      StagePassed(c, order, vpc, 3, mid, more, done, cloud);

      err := Do(Call.DeleteVpc(vpc));
      LastCallPromise(c, order, vpc, cloud, err);
      RefusedOnlyWhenGone(c, order, vpc, Plan(c, order, vpc), cloud, err);
      done := done + [Call.DeleteVpc(vpc)];
    }
  }

  /** A teardown is refused exactly if it is of a VPC that does not exist. */
  lemma RefusedOnlyWhenGone(c: Cloud, order: seq<Id>, vpc: Id, done: seq<Call>, now: Cloud, err: Option<CloudError>)
    requires TeardownPromise(c, order, vpc, done, now, err)
    ensures vpc in c.vpcs ==> err != Some(Refused)
    ensures vpc !in c.vpcs ==> err.Some?
  {}

  // ---------------------------------------------------------------- the four stages as one list

  function StageOf(c: Cloud, order: seq<Id>, vpc: Id, k: nat): seq<Call>
    requires 1 <= k <= 4
  {
    if k == 1 then Stage1(c, order, vpc)
    else if k == 2 then Stage2(c, order, vpc)
    else if k == 3 then Stage3(c, order, vpc)
    else Stage4(c, order, vpc)
  }

  /** The calls of the first `k` stages. */
  function Upto(c: Cloud, order: seq<Id>, vpc: Id, k: nat): seq<Call>
    requires k <= 4
  {
    if k == 0 then [] else Upto(c, order, vpc, k - 1) + StageOf(c, order, vpc, k)
  }

  lemma BeforeStages(c: Cloud, order: seq<Id>, vpc: Id)
    ensures Upto(c, order, vpc, 0) == [] && Run(c, Upto(c, order, vpc, 0)) == c
    ensures Upto(c, order, vpc, 4) == Clearing(c, order, vpc)
    ensures Upto(c, order, vpc, 4) + [DeleteVpc(vpc)] == Plan(c, order, vpc)
  {
    hide Stage1, Stage2, Stage3, Stage4;
    UptoUnfolded(c, order, vpc);
  }

  lemma UptoUnfolded(c: Cloud, order: seq<Id>, vpc: Id)
    ensures Upto(c, order, vpc, 1) == Stage1(c, order, vpc)
    ensures Upto(c, order, vpc, 2) == Stage1(c, order, vpc) + Stage2(c, order, vpc)
    ensures Upto(c, order, vpc, 3) == Stage1(c, order, vpc) + Stage2(c, order, vpc) + Stage3(c, order, vpc)
    ensures Upto(c, order, vpc, 4) == Clearing(c, order, vpc)
  {
    hide Stage1, Stage2, Stage3, Stage4;
    assert Upto(c, order, vpc, 0) == [];
    assert Upto(c, order, vpc, 1) == [] + Stage1(c, order, vpc);
    assert Upto(c, order, vpc, 2) == Upto(c, order, vpc, 1) + Stage2(c, order, vpc);
    assert Upto(c, order, vpc, 3) == Upto(c, order, vpc, 2) + Stage3(c, order, vpc);
    assert Upto(c, order, vpc, 4) == Upto(c, order, vpc, 3) + Stage4(c, order, vpc);
  }

  /** After `k` stages, the next one finds what the first listing would have shown. */
  lemma AfterStages(c: Cloud, order: seq<Id>, vpc: Id, k: nat)
    requires Lists(order, c) && k <= 3
    ensures var d := Run(c, Upto(c, order, vpc, k));
            && Legal(c, Upto(c, order, vpc, k)) && Lists(order, d)
            && StageOf(d, order, vpc, k + 1) == StageOf(c, order, vpc, k + 1)
  {
    hide Stage1, Stage2, Stage3, Stage4, Lists;
    UptoUnfolded(c, order, vpc);
    if k == 1 {
      AfterStage1(c, order, vpc);
    } else if k == 2 {
      AfterStage2(c, order, vpc);
    } else if k == 3 {
      AfterStage3(c, order, vpc);
    }
  }

  lemma {:induction false} RestOfStages(c: Cloud, order: seq<Id>, vpc: Id, k: nat) returns (rest: seq<Call>)
    requires k <= 4
    ensures Upto(c, order, vpc, k) + rest == Upto(c, order, vpc, 4)
    decreases 4 - k
  {
    hide StageOf;
    if k == 4 {
      rest := [];
    } else {
      var later := RestOfStages(c, order, vpc, k + 1);
      rest := StageOf(c, order, vpc, k + 1) + later;
      assert Upto(c, order, vpc, k) + rest == Upto(c, order, vpc, k + 1) + later;
    }
  }

  /** A stage that breaks off breaks the teardown off. */
  lemma StageFailed(c: Cloud, order: seq<Id>, vpc: Id, k: nat, mid: Cloud, more: seq<Call>,
        done: seq<Call>, now: Cloud, err: Option<CloudError>)
    requires Lists(order, c) && k <= 3 && mid == Run(c, Upto(c, order, vpc, k))
    requires Ran(mid, StageOf(mid, order, vpc, k + 1), more, now, err) && err.Some?
    requires done == Upto(c, order, vpc, k) + more
    ensures TeardownPromise(c, order, vpc, done, now, err)
  {
    hide Legal, Run, Ran, Lists, StageOf, TeardownPromise, Clearing, Flat, Plan;
    AfterStages(c, order, vpc, k);
    RanThen(c, Upto(c, order, vpc, k), StageOf(c, order, vpc, k + 1), mid, more, now, err);
    var rest := RestOfStages(c, order, vpc, k + 1);
    UptoUnfolded(c, order, vpc);
    RanExtends(c, Upto(c, order, vpc, k + 1), rest, done, now, err);
    RanIsPromise(c, order, vpc, done, now, err);
  }

  lemma StagePassed(c: Cloud, order: seq<Id>, vpc: Id, k: nat, mid: Cloud, more: seq<Call>, done: seq<Call>, now: Cloud)
    requires Lists(order, c) && k <= 3 && mid == Run(c, Upto(c, order, vpc, k))
    requires Ran(mid, StageOf(mid, order, vpc, k + 1), more, now, None)
    requires done == Upto(c, order, vpc, k) + more
    ensures done == Upto(c, order, vpc, k + 1) && now == Run(c, done)
    ensures k < 3 ==> Lists(order, now)
  {
    hide Legal, Lists, StageOf;
    AfterStages(c, order, vpc, k);
    RunConcat(c, Upto(c, order, vpc, k), StageOf(c, order, vpc, k + 1));
    if k < 3 {
      AfterStages(c, order, vpc, k + 1);
    }
  }

  // ---------------------------------------------------------------- whose turn it is

  /** Each stage starts with its whole list ahead. */
  lemma StageStarts(c: Cloud, order: seq<Id>, vpc: Id)
    requires Lists(order, c)
    ensures Midway(c, Stage1(c, order, vpc), [], Stage1(c, order, vpc), c)
    ensures Midway(c, Stage2(c, order, vpc), [], Stage2(c, order, vpc), c)
    ensures Midway(c, Stage3(c, order, vpc), [], Stage3(c, order, vpc), c)
    ensures Midway(c, Stage4(c, order, vpc), [], Stage4(c, order, vpc), c)
    ensures Stage1(c, order, vpc) == Flat(Pick(order, GatewaysOf(c, vpc))[0..], ForGateway(vpc))
    ensures Stage2(c, order, vpc) == Flat(Pick(order, TablesOf(c, vpc))[0..], ForTable(c, order))
    ensures Stage3(c, order, vpc) == Flat(Pick(order, AclsOf(c, vpc))[0..], ForAcl(c))
    ensures Stage4(c, order, vpc) == Flat(Pick(order, SubnetsOf(c, vpc))[0..], ForSubnet(c, order))
  {
    hide Legal, Run, Lists, Pick, Flat, Midway, GatewaysOf, TablesOf, AclsOf, SubnetsOf;
    Stage1Legal(c, order, vpc);
    Stage2Legal(c, c, order, vpc);
    Stage3Legal(c, c, order, vpc);
    Stage4Legal(c, c, order, vpc);
    MidwayStart(c, Stage1(c, order, vpc));
    MidwayStart(c, Stage2(c, order, vpc));
    MidwayStart(c, Stage3(c, order, vpc));
    MidwayStart(c, Stage4(c, order, vpc));
    FlatEnds(Pick(order, GatewaysOf(c, vpc)), ForGateway(vpc));
    FlatEnds(Pick(order, TablesOf(c, vpc)), ForTable(c, order));
    FlatEnds(Pick(order, AclsOf(c, vpc)), ForAcl(c));
    FlatEnds(Pick(order, SubnetsOf(c, vpc)), ForSubnet(c, order));
  }

  lemma GatewayTurn(xs: seq<Id>, vpc: Id, i: nat)
    requires i < |xs|
    ensures Flat(xs[i..], ForGateway(vpc)) ==
            [Detach(xs[i], vpc)] + ([DeleteGateway(xs[i])] + Flat(xs[i + 1..], ForGateway(vpc)))
  {
    hide Flat;
    FlatCut(xs, ForGateway(vpc), i);
  }

  lemma TableTurn(c: Cloud, order: seq<Id>, xs: seq<Id>, i: nat)
    requires i < |xs|
    ensures var here := Pick(order, AssociationsOf(c, xs[i]));
            Flat(xs[i..], ForTable(c, order)) ==
                Flat(here[0..], ForAssociation(c)) + Flat(xs[i + 1..], ForTable(c, order))
  {
    hide Flat, Pick, AssociationsOf;
    FlatCut(xs, ForTable(c, order), i);
    FlatEnds(Pick(order, AssociationsOf(c, xs[i])), ForAssociation(c));
  }

  lemma AssociationTurn(c: Cloud, xs: seq<Id>, j: nat, rest: seq<Call>)
    requires j < |xs|
    ensures var after := Flat(xs[j + 1..], ForAssociation(c)) + rest;
            Flat(xs[j..], ForAssociation(c)) + rest == if IsMain(c, xs[j]) then after else [Disassociate(xs[j])] + after
  {
    hide Flat;
    FlatCut(xs, ForAssociation(c), j);
  }

  lemma AclTurn(c: Cloud, xs: seq<Id>, i: nat)
    requires i < |xs|
    ensures var after := Flat(xs[i + 1..], ForAcl(c));
            Flat(xs[i..], ForAcl(c)) == if IsDefault(c, xs[i]) then after else [DeleteAcl(xs[i])] + after
  {
    hide Flat;
    FlatCut(xs, ForAcl(c), i);
  }

  lemma InterfaceTurn(xs: seq<Id>, j: nat, rest: seq<Call>)
    requires j < |xs|
    ensures Flat(xs[j..], ForInterface) + rest ==
            [DeleteInterface(xs[j])] + (Flat(xs[j + 1..], ForInterface) + rest)
  {
    hide Flat;
    FlatCut(xs, ForInterface, j);
  }

  /** A subnet whose turn it is has all its interfaces. */
  lemma SubnetTurn(c: Cloud, order: seq<Id>, vpc: Id, i: nat, done: seq<Call>, now: Cloud)
    requires Lists(order, c) && i < |Pick(order, SubnetsOf(c, vpc))|
    requires Midway(c, Stage4(c, order, vpc), done, Flat(Pick(order, SubnetsOf(c, vpc))[i..], ForSubnet(c, order)), now)
    ensures var xs := Pick(order, SubnetsOf(c, vpc));
            var here := Pick(order, InterfacesOf(now, xs[i]));
            Flat(xs[i..], ForSubnet(c, order)) ==
            Flat(here[0..], ForInterface) + ([DeleteSubnet(xs[i])] + Flat(xs[i + 1..], ForSubnet(c, order)))
  {
    hide Flat, Pick, InterfacesOf, SubnetsOf, Run, Legal, Lists;
    var xs := Pick(order, SubnetsOf(c, vpc));
    SubnetsListedOnce(c, order, vpc);
    FlatSplit(xs, ForSubnet(c, order), i);
    assert done == Flat(xs[..i], ForSubnet(c, order)) by {
      SameRest(done, Flat(xs[..i], ForSubnet(c, order)), Flat(xs[i..], ForSubnet(c, order)));
    }
    RunConcat(c, done, Flat(xs[i..], ForSubnet(c, order)));
    SubnetAhead(c, order, xs, i, now);
    FlatCut(xs, ForSubnet(c, order), i);
    FlatEnds(Pick(order, InterfacesOf(c, xs[i])), ForInterface);
  }

  lemma {:induction false} FlatSplit(xs: seq<Id>, item: Item, i: nat)
    requires i <= |xs|
    ensures Flat(xs, item) == Flat(xs[..i], item) + Flat(xs[i..], item)
  {
    FlatEnds(xs, item);
    if i > 0 {
      var j: nat := i - 1;
      FlatSplit(xs, item, j);
      FlatCut(xs, item, j);
    }
  }

  lemma SameRest(a: seq<Call>, b: seq<Call>, rest: seq<Call>)
    requires a + rest == b + rest
    ensures a == b
  {
    assert |a + rest| == |b + rest|;
    assert a == (a + rest)[..|a|] && b == (b + rest)[..|b|];
  }

  lemma NothingLeft(xs: seq<Id>, item: Item, rest: seq<Call>)
    ensures Flat(xs[|xs|..], item) + rest == rest
  {}

  lemma SubnetsListedOnce(c: Cloud, order: seq<Id>, vpc: Id)
    requires Lists(order, c)
    ensures NoDup(Pick(order, SubnetsOf(c, vpc)))
  {
    PickMembers(order, SubnetsOf(c, vpc));
  }
}
