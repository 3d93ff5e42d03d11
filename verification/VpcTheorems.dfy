/** Teardown: complete, in dependency order, confined to its VPC, and resumable. */
module VpcTheorems {
  import opened Listings
  import opened VpcPlan
  import opened Wrappers

  /** The calls a teardown of `vpc` consists of. */
  predicate Targets(c: Cloud, vpc: Id, call: Call)
  {
    match call
    case Detach(g, v) => v == vpc && g in c.gateways && c.gateways[g] == Some(vpc)
    case DeleteGateway(g) => g in c.gateways && c.gateways[g] == Some(vpc)
    case Disassociate(a) =>
      && a in c.associations && c.associations[a].main != Some(true)
      && c.associations[a].table in c.tables && c.tables[c.associations[a].table] == vpc
    case DeleteAcl(a) => a in c.acls && c.acls[a].isDefault != Some(true) && c.acls[a].vpc == vpc
    case DeleteInterface(i) => i in c.interfaces && c.interfaces[i] in c.subnets && c.subnets[c.interfaces[i]] == vpc
    case DeleteSubnet(s) => s in c.subnets && c.subnets[s] == vpc
    case DeleteVpc(v) => v == vpc
  }

  // ---------------------------------------------------------------- exactly these calls

  lemma GatewayCallsAre(gateways: seq<Id>, vpc: Id, x: Call)
    ensures x in GatewayCalls(gateways, vpc) <==>
            (x.Detach? && x.vpc == vpc && x.gateway in gateways) || (x.DeleteGateway? && x.gateway in gateways)
  {
    FlatMember(gateways, ForGateway(vpc), x);
    assert (x.Detach? && x.vpc == vpc) || x.DeleteGateway? ==> x in Each(ForGateway(vpc), x.gateway);
  }

  lemma DisassociateCallsAre(c: Cloud, associations: seq<Id>, x: Call)
    ensures x in DisassociateCalls(c, associations) <==>
            x.Disassociate? && x.association in associations && !IsMain(c, x.association)
  {
    FlatMember(associations, ForAssociation(c), x);
    assert x.Disassociate? && !IsMain(c, x.association) ==> x in Each(ForAssociation(c), x.association);
  }

  lemma TableCallsAre(c: Cloud, order: seq<Id>, tables: seq<Id>, x: Call)
    requires Lists(order, c)
    ensures x in TableCalls(c, order, tables) <==>
            && x.Disassociate? && x.association in c.associations && !IsMain(c, x.association)
            && c.associations[x.association].table in tables
  {
    hide Pick, IsMain, Flat;
    FlatMember(tables, ForTable(c, order), x);
    forall t
      ensures x in Each(ForTable(c, order), t) <==>
              x.Disassociate? && x.association in AssociationsOf(c, t) && !IsMain(c, x.association)
    {
      PickMembers(order, AssociationsOf(c, t));
      DisassociateCallsAre(c, Pick(order, AssociationsOf(c, t)), x);
    }
  }

  lemma AclCallsAre(c: Cloud, acls: seq<Id>, x: Call)
    ensures x in AclCalls(c, acls) <==> x.DeleteAcl? && x.acl in acls && !IsDefault(c, x.acl)
  {
    FlatMember(acls, ForAcl(c), x);
    assert x.DeleteAcl? && !IsDefault(c, x.acl) ==> x in Each(ForAcl(c), x.acl);
  }

  lemma InterfaceCallsAre(interfaces: seq<Id>, x: Call)
    ensures x in InterfaceCalls(interfaces) <==> x.DeleteInterface? && x.eni in interfaces
  {
    FlatMember(interfaces, ForInterface, x);
    assert x.DeleteInterface? ==> x in Each(ForInterface, x.eni);
  }

  lemma SubnetCallsAre(c: Cloud, order: seq<Id>, subnets: seq<Id>, x: Call)
    requires Lists(order, c)
    ensures x in SubnetCalls(c, order, subnets) <==>
            || (x.DeleteInterface? && x.eni in c.interfaces && c.interfaces[x.eni] in subnets)
            || (x.DeleteSubnet? && x.subnet in subnets)
  {
    hide Pick, Flat;
    FlatMember(subnets, ForSubnet(c, order), x);
    forall s
      ensures x in Each(ForSubnet(c, order), s) <==>
              (x.DeleteInterface? && x.eni in InterfacesOf(c, s)) || x == DeleteSubnet(s)
    {
      PickMembers(order, InterfacesOf(c, s));
      InterfaceCallsAre(Pick(order, InterfacesOf(c, s)), x);
    }
  }

  /** The plan issues the calls that clear the VPC, and no other call. */
  lemma PlanTargets(c: Cloud, order: seq<Id>, vpc: Id, x: Call)
    requires Lists(order, c)
    ensures x in Plan(c, order, vpc) <==> Targets(c, vpc, x)
    ensures x in Clearing(c, order, vpc) <==> Targets(c, vpc, x) && !x.DeleteVpc?
  {
    hide Pick, NoDup, GatewayCalls, TableCalls, AclCalls, SubnetCalls;
    PickMembers(order, GatewaysOf(c, vpc));
    PickMembers(order, TablesOf(c, vpc));
    PickMembers(order, AclsOf(c, vpc));
    PickMembers(order, SubnetsOf(c, vpc));
    GatewayCallsAre(Pick(order, GatewaysOf(c, vpc)), vpc, x);
    TableCallsAre(c, order, Pick(order, TablesOf(c, vpc)), x);
    AclCallsAre(c, Pick(order, AclsOf(c, vpc)), x);
    SubnetCallsAre(c, order, Pick(order, SubnetsOf(c, vpc)), x);
  }

  // ---------------------------------------------------------------- in an order the server accepts

  /** Two clouds that differ only in what the first stage touches, and so on. */
  predicate SameBut1(c: Cloud, d: Cloud)
  {
    d == c.(gateways := d.gateways)
  }

  predicate SameBut2(c: Cloud, d: Cloud)
  {
    d == c.(associations := d.associations)
  }

  predicate SameBut3(c: Cloud, d: Cloud)
  {
    d == c.(acls := d.acls)
  }

  predicate SameBut4(c: Cloud, d: Cloud)
  {
    d == c.(subnets := d.subnets, interfaces := d.interfaces)
  }

  lemma {:induction false} GatewayCallsLegal(c: Cloud, gateways: seq<Id>, vpc: Id)
    requires NoDup(gateways) && forall g :: g in gateways ==> g in c.gateways && c.gateways[g] == Some(vpc)
    ensures Legal(c, GatewayCalls(gateways, vpc)) && SameBut1(c, Run(c, GatewayCalls(gateways, vpc)))
    decreases |gateways|
  {
    if gateways != [] {
      FlatFirst(gateways, ForGateway(vpc));
      NoDupTail(gateways);
      var g := gateways[0];
      var d := Effect(Effect(c, Detach(g, vpc)), DeleteGateway(g));
      GatewayCallsLegal(d, gateways[1..], vpc);
      RunConcat(c, [Detach(g, vpc), DeleteGateway(g)], GatewayCalls(gateways[1..], vpc));
      TwoCalls(c, Detach(g, vpc), DeleteGateway(g));
    }
  }

  lemma OneCall(c: Cloud, x: Call)
    ensures Run(c, [x]) == Effect(c, x) && (Legal(c, [x]) <==> Allowed(c, x))
  {
    assert [x][1..] == [];
  }

  lemma TwoCalls(c: Cloud, x: Call, y: Call)
    ensures Run(c, [x, y]) == Effect(Effect(c, x), y)
            && (Legal(c, [x, y]) <==> Allowed(c, x) && Allowed(Effect(c, x), y))
  {
    assert [x, y][1..] == [y];
    OneCall(Effect(c, x), y);
  }

  lemma {:induction false} DisassociateCallsLegal(c0: Cloud, c: Cloud, associations: seq<Id>)
    requires NoDup(associations)
    requires forall a :: a in associations ==>
             a in c.associations && a in c0.associations && c.associations[a] == c0.associations[a]
    ensures Legal(c, DisassociateCalls(c0, associations)) && SameBut2(c, Run(c, DisassociateCalls(c0, associations)))
    ensures forall a :: a in c.associations && a !in associations ==>
              a in Run(c, DisassociateCalls(c0, associations)).associations
                  && Run(c, DisassociateCalls(c0, associations)).associations[a] == c.associations[a]
    decreases |associations|
  {
    hide NoDup;
    if associations != [] {
      FlatFirst(associations, ForAssociation(c0));
      NoDupTail(associations);
      var a := associations[0];
      assert associations == [a] + associations[1..];
      if IsMain(c0, a) {
        DisassociateCallsLegal(c0, c, associations[1..]);
        assert DisassociateCalls(c0, associations) == DisassociateCalls(c0, associations[1..]);
      } else {
        DisassociateCallsLegal(c0, Effect(c, Disassociate(a)), associations[1..]);
        RunConcat(c, [Disassociate(a)], DisassociateCalls(c0, associations[1..]));
        OneCall(c, Disassociate(a));
      }
    }
  }

  lemma {:induction false} TableCallsLegal(c0: Cloud, c: Cloud, order: seq<Id>, tables: seq<Id>)
    requires Lists(order, c0) && NoDup(tables)
    requires forall a :: a in c0.associations && c0.associations[a].table in tables ==>
             a in c.associations && c.associations[a] == c0.associations[a]
    ensures Legal(c, TableCalls(c0, order, tables)) && SameBut2(c, Run(c, TableCalls(c0, order, tables)))
    decreases |tables|
  {
    if tables != [] {
      FlatFirst(tables, ForTable(c0, order));
      NoDupTail(tables);
      assert tables == [tables[0]] + tables[1..];
      var here := AssociationsOf(c0, tables[0]);
      PickMembers(order, here);
      var calls := DisassociateCalls(c0, Pick(order, here));
      DisassociateCallsLegal(c0, c, Pick(order, here));
      TableCallsLegal(c0, Run(c, calls), order, tables[1..]);
      RunConcat(c, calls, TableCalls(c0, order, tables[1..]));
    }
  }

  lemma {:induction false} AclCallsLegal(c0: Cloud, c: Cloud, acls: seq<Id>)
    requires NoDup(acls) && forall a :: a in acls ==> a in c.acls && a in c0.acls && c.acls[a] == c0.acls[a]
    ensures Legal(c, AclCalls(c0, acls)) && SameBut3(c, Run(c, AclCalls(c0, acls)))
    decreases |acls|
  {
    if acls != [] {
      FlatFirst(acls, ForAcl(c0));
      NoDupTail(acls);
      var a := acls[0];
      assert acls == [a] + acls[1..];
      if IsDefault(c0, a) {
        AclCallsLegal(c0, c, acls[1..]);
        assert AclCalls(c0, acls) == AclCalls(c0, acls[1..]);
      } else {
        AclCallsLegal(c0, Effect(c, DeleteAcl(a)), acls[1..]);
        RunConcat(c, [DeleteAcl(a)], AclCalls(c0, acls[1..]));
        OneCall(c, DeleteAcl(a));
      }
    }
  }

  lemma {:induction false} InterfaceCallsLegal(c: Cloud, interfaces: seq<Id>)
    requires NoDup(interfaces) && forall i :: i in interfaces ==> i in c.interfaces
    ensures Legal(c, InterfaceCalls(interfaces))
    ensures Run(c, InterfaceCalls(interfaces)) == c.(interfaces := c.interfaces - (set i | i in interfaces))
    decreases |interfaces|
  {
    if interfaces == [] {
      assert c.interfaces - (set i | i in interfaces) == c.interfaces;
    } else {
      FlatFirst(interfaces, ForInterface);
      NoDupTail(interfaces);
      var i := interfaces[0];
      assert interfaces == [i] + interfaces[1..];
      var d := Effect(c, DeleteInterface(i));
      InterfaceCallsLegal(d, interfaces[1..]);
      RunConcat(c, [DeleteInterface(i)], InterfaceCalls(interfaces[1..]));
      OneCall(c, DeleteInterface(i));
      assert (c.interfaces - {i}) - (set j | j in interfaces[1..]) == c.interfaces - (set j | j in interfaces);
    }
  }

  lemma {:induction false} SubnetCallsLegal(c0: Cloud, c: Cloud, order: seq<Id>, subnets: seq<Id>)
    requires Lists(order, c0) && NoDup(subnets)
    requires forall s :: s in subnets ==> s in c.subnets && InterfacesOf(c, s) == InterfacesOf(c0, s)
    ensures Legal(c, SubnetCalls(c0, order, subnets)) && SameBut4(c, Run(c, SubnetCalls(c0, order, subnets)))
    decreases |subnets|
  {
    if subnets != [] {
      FlatFirst(subnets, ForSubnet(c0, order));
      NoDupTail(subnets);
      var s := subnets[0];
      assert subnets == [s] + subnets[1..];
      var d := OneSubnet(c0, c, order, s);
      forall t | t in subnets[1..] ensures InterfacesOf(d, t) == InterfacesOf(c0, t) && t in d.subnets {
        assert InterfacesOf(d, t) == InterfacesOf(c, t);
      }
      SubnetCallsLegal(c0, d, order, subnets[1..]);
      var calls := InterfaceCalls(Pick(order, InterfacesOf(c0, s))) + [DeleteSubnet(s)];
      RunConcat(c, calls, SubnetCalls(c0, order, subnets[1..]));
    }
  }

  lemma OneSubnet(c0: Cloud, c: Cloud, order: seq<Id>, s: Id) returns (d: Cloud)
    requires Lists(order, c0) && s in c.subnets && InterfacesOf(c, s) == InterfacesOf(c0, s)
    ensures var calls := InterfaceCalls(Pick(order, InterfacesOf(c0, s))) + [DeleteSubnet(s)];
            Legal(c, calls) && d == Run(c, calls)
    ensures d == c.(subnets := c.subnets - {s}, interfaces := c.interfaces - InterfacesOf(c, s))
  {
    var here := InterfacesOf(c0, s);
    var picked := Pick(order, here);
    PickMembers(order, here);
    InterfaceCallsLegal(c, picked);
    assert (set i | i in picked) == here;
    var cleared := Run(c, InterfaceCalls(picked));
    assert InterfacesOf(cleared, s) == {};
    RunConcat(c, InterfaceCalls(picked), [DeleteSubnet(s)]);
    OneCall(cleared, DeleteSubnet(s));
    d := Effect(cleared, DeleteSubnet(s));
  }

  lemma Stage1Legal(c: Cloud, order: seq<Id>, vpc: Id)
    requires Lists(order, c)
    ensures Legal(c, Stage1(c, order, vpc)) && SameBut1(c, Run(c, Stage1(c, order, vpc)))
  {
    PickMembers(order, GatewaysOf(c, vpc));
    GatewayCallsLegal(c, Pick(order, GatewaysOf(c, vpc)), vpc);
  }

  lemma Stage2Legal(c: Cloud, d: Cloud, order: seq<Id>, vpc: Id)
    requires Lists(order, c) && d.associations == c.associations
    ensures Legal(d, Stage2(c, order, vpc)) && SameBut2(d, Run(d, Stage2(c, order, vpc)))
  {
    PickMembers(order, TablesOf(c, vpc));
    TableCallsLegal(c, d, order, Pick(order, TablesOf(c, vpc)));
  }

  lemma Stage3Legal(c: Cloud, d: Cloud, order: seq<Id>, vpc: Id)
    requires Lists(order, c) && d.acls == c.acls
    ensures Legal(d, Stage3(c, order, vpc)) && SameBut3(d, Run(d, Stage3(c, order, vpc)))
  {
    PickMembers(order, AclsOf(c, vpc));
    AclCallsLegal(c, d, Pick(order, AclsOf(c, vpc)));
  }

  lemma Stage4Legal(c: Cloud, d: Cloud, order: seq<Id>, vpc: Id)
    requires Lists(order, c) && d.subnets == c.subnets && d.interfaces == c.interfaces
    ensures Legal(d, Stage4(c, order, vpc)) && SameBut4(d, Run(d, Stage4(c, order, vpc)))
  {
    var subnets := Pick(order, SubnetsOf(c, vpc));
    PickMembers(order, SubnetsOf(c, vpc));
    forall s | s in subnets ensures InterfacesOf(d, s) == InterfacesOf(c, s) {}
    SubnetCallsLegal(c, d, order, subnets);
  }

  /** No call before the last gives the server cause to refuse it: gateways are detached
      before they are deleted, interfaces go before their subnet. */
  lemma ClearingLegal(c: Cloud, order: seq<Id>, vpc: Id)
    requires Lists(order, c)
    ensures Legal(c, Clearing(c, order, vpc))
  {
    hide Legal, Run, Stage1, Stage2, Stage3, Stage4, Lists;
    var s1, s2, s3, s4 := Stage1(c, order, vpc), Stage2(c, order, vpc), Stage3(c, order, vpc), Stage4(c, order, vpc);
    Stage1Legal(c, order, vpc);
    Stage2Legal(c, Run(c, s1), order, vpc);
    RunConcat(c, s1, s2);
    Stage3Legal(c, Run(c, s1 + s2), order, vpc);
    RunConcat(c, s1 + s2, s3);
    Stage4Legal(c, Run(c, s1 + s2 + s3), order, vpc);
    RunConcat(c, s1 + s2 + s3, s4);
  }

  lemma WithoutBares(c: Cloud, calls: set<Call>, vpc: Id)
    requires forall x :: Targets(c, vpc, x) && !x.DeleteVpc? ==> x in calls
    ensures Bare(Without(c, calls), vpc)
  {
  }

  /** Clearing leaves nothing that would keep the VPC from being deleted. */
  lemma ClearingBares(c: Cloud, order: seq<Id>, vpc: Id)
    requires Lists(order, c)
    ensures Bare(Run(c, Clearing(c, order, vpc)), vpc)
  {
    var calls := Clearing(c, order, vpc);
    ClearingLegal(c, order, vpc);
    RunIsWithout(c, calls);
    forall x | Targets(c, vpc, x) && !x.DeleteVpc? ensures x in Calls(calls) {
      PlanTargets(c, order, vpc, x);
    }
    WithoutBares(c, Calls(calls), vpc);
  }

  lemma ClearingKeepsVpc(c: Cloud, order: seq<Id>, vpc: Id)
    requires Lists(order, c)
    ensures vpc in Run(c, Clearing(c, order, vpc)).vpcs <==> vpc in c.vpcs
  {
    ClearingLegal(c, order, vpc);
    RunIsWithout(c, Clearing(c, order, vpc));
    PlanTargets(c, order, vpc, DeleteVpc(vpc));
  }

  /** The whole plan is accepted by the server, the last call included. */
  lemma PlanLegal(c: Cloud, order: seq<Id>, vpc: Id)
    requires Lists(order, c) && vpc in c.vpcs
    ensures Legal(c, Plan(c, order, vpc))
  {
    hide Clearing, Run, Legal, Bare, Lists;
    var calls := Clearing(c, order, vpc);
    ClearingLegal(c, order, vpc);
    ClearingBares(c, order, vpc);
    ClearingKeepsVpc(c, order, vpc);
    RunConcat(c, calls, [DeleteVpc(vpc)]);
    OneCall(Run(c, calls), DeleteVpc(vpc));
  }

  // ---------------------------------------------------------------- each resource once

  /** The call has nothing left to act on. */
  predicate Spent(c: Cloud, x: Call)
  {
    match x
    case Detach(g, vpc) => !(g in c.gateways && c.gateways[g] == Some(vpc))
    case DeleteGateway(g) => g !in c.gateways
    case Disassociate(a) => a !in c.associations
    case DeleteAcl(a) => a !in c.acls
    case DeleteInterface(i) => i !in c.interfaces
    case DeleteSubnet(s) => s !in c.subnets
    case DeleteVpc(v) => v !in c.vpcs
  }

  lemma SpentStays(c: Cloud, y: Call, x: Call)
    requires Allowed(c, y) && Spent(c, x)
    ensures y != x && Spent(Effect(c, y), x)
  {}

  lemma {:induction false} SpentForGood(c: Cloud, calls: seq<Call>, x: Call)
    requires Legal(c, calls) && Spent(c, x)
    ensures x !in calls
    decreases |calls|
  {
    if calls != [] {
      SpentStays(c, calls[0], x);
      SpentForGood(Effect(c, calls[0]), calls[1..], x);
      assert calls == [calls[0]] + calls[1..];
    }
  }

  lemma {:induction false} LegalNoDup(c: Cloud, calls: seq<Call>)
    requires Legal(c, calls)
    ensures NoDup(calls)
    decreases |calls|
  {
    if calls != [] {
      LegalNoDup(Effect(c, calls[0]), calls[1..]);
      SpentForGood(Effect(c, calls[0]), calls[1..], calls[0]);
      forall i, j | 0 <= i < j < |calls| ensures calls[i] != calls[j] {
        assert calls[j] == calls[1..][j - 1] && calls[j] in calls[1..];
        assert i > 0 ==> calls[i] == calls[1..][i - 1];
      }
    }
  }

  lemma LegalPrefix(c: Cloud, calls: seq<Call>, k: nat)
    requires Legal(c, calls) && k <= |calls|
    ensures Legal(c, calls[..k]) && Legal(Run(c, calls[..k]), calls[k..])
    ensures Run(c, calls) == Run(Run(c, calls[..k]), calls[k..])
  {
    assert calls == calls[..k] + calls[k..];
    RunConcat(c, calls[..k], calls[k..]);
  }

  /** Only the last call depends on the VPC's own existence. */
  lemma PlanLegalUpTo(c: Cloud, order: seq<Id>, vpc: Id, k: nat)
    requires Lists(order, c) && k <= |Plan(c, order, vpc)| && (k < |Plan(c, order, vpc)| || vpc in c.vpcs)
    ensures Legal(c, Plan(c, order, vpc)[..k]) && NoDup(Plan(c, order, vpc)[..k])
  {
    var plan, calls := Plan(c, order, vpc), Clearing(c, order, vpc);
    if k < |plan| {
      ClearingLegal(c, order, vpc);
      assert plan[..k] == calls[..k];
      LegalPrefix(c, calls, k);
    } else {
      PlanLegal(c, order, vpc);
      assert plan[..k] == plan;
    }
    LegalNoDup(c, plan[..k]);
  }

  /** At every point of a teardown the next call is one the server accepts, it is made for
      the first time, and it is the VPC's own turn only when the VPC is bare. */
  lemma EveryCallInTurn(c: Cloud, order: seq<Id>, vpc: Id, k: nat)
    requires Lists(order, c) && k < |Plan(c, order, vpc)|
    ensures var plan := Plan(c, order, vpc);
            var now := Run(c, plan[..k]);
            && Targets(c, vpc, plan[k])
            && (plan[k].DeleteVpc? ==> Bare(now, vpc))
            && (!plan[k].DeleteVpc? || vpc in c.vpcs ==> Allowed(now, plan[k]) && plan[k] !in plan[..k])
            && (plan[k].DeleteGateway? ==> plan[k].gateway in now.gateways && now.gateways[plan[k].gateway] == None)
            && (plan[k].DeleteSubnet? ==> forall i :: i in now.interfaces ==> now.interfaces[i] != plan[k].subnet)
  {
    hide Legal, Run, Allowed, Lists, Targets, Bare, NoDup;
    var plan, calls := Plan(c, order, vpc), Clearing(c, order, vpc);
    PlanTargets(c, order, vpc, plan[k]);
    if k == |calls| {
      assert plan[..k] == calls;
      ClearingBares(c, order, vpc);
    } else {
      assert plan[k] == calls[k] && calls[k] in calls;
    }
    if k < |calls| || vpc in c.vpcs {
      PlanLegalUpTo(c, order, vpc, k + 1);
      NextInTurn(c, plan, k);
      ServerRules(Run(c, plan[..k]), plan[k]);
    } else {
      assert plan[k] == DeleteVpc(vpc);
    }
  }

  /** What the server's consent to a call says about the account. */
  lemma ServerRules(c: Cloud, x: Call)
    requires Allowed(c, x)
    ensures x.Detach? ==> x.gateway in c.gateways && c.gateways[x.gateway] == Some(x.vpc)
    ensures x.DeleteGateway? ==> x.gateway in c.gateways && c.gateways[x.gateway] == None
    ensures x.Disassociate? ==> x.association in c.associations && c.associations[x.association].main != Some(true)
    ensures x.DeleteAcl? ==> x.acl in c.acls && c.acls[x.acl].isDefault != Some(true)
    ensures x.DeleteInterface? ==> x.eni in c.interfaces
    ensures x.DeleteSubnet? ==> x.subnet in c.subnets && forall i :: i in c.interfaces ==> c.interfaces[i] != x.subnet
    ensures x.DeleteVpc? ==> x.vpc in c.vpcs && Bare(c, x.vpc)
  {
    if x.DeleteSubnet? {
      forall i | i in c.interfaces ensures c.interfaces[i] != x.subnet {
        assert i !in InterfacesOf(c, x.subnet);
      }
    }
  }

  lemma NextInTurn(c: Cloud, plan: seq<Call>, k: nat)
    requires k < |plan| && Legal(c, plan[..k + 1]) && NoDup(plan[..k + 1])
    ensures Allowed(Run(c, plan[..k]), plan[k]) && plan[k] !in plan[..k]
  {
    assert plan[..k + 1] == plan[..k] + [plan[k]];
    RunConcat(c, plan[..k], [plan[k]]);
    OneCall(Run(c, plan[..k]), plan[k]);
    forall i | 0 <= i < k ensures plan[i] != plan[k] {
      assert plan[..k + 1][i] != plan[..k + 1][k];
    }
  }

  // ---------------------------------------------------------------- nothing else

  predicate GatewaysKept(c: Cloud, now: Cloud, vpc: Id)
  {
    forall g :: g in c.gateways && c.gateways[g] != Some(vpc) ==> g in now.gateways && now.gateways[g] == c.gateways[g]
  }

  predicate AssociationsKept(c: Cloud, now: Cloud, vpc: Id)
  {
    forall a :: a in c.associations && (c.associations[a].main == Some(true)
                  || c.associations[a].table !in c.tables || c.tables[c.associations[a].table] != vpc) ==>
      a in now.associations && now.associations[a] == c.associations[a]
  }

  predicate AclsKept(c: Cloud, now: Cloud, vpc: Id)
  {
    forall a :: a in c.acls && (c.acls[a].vpc != vpc || c.acls[a].isDefault == Some(true)) ==>
      a in now.acls && now.acls[a] == c.acls[a]
  }

  predicate SubnetsKept(c: Cloud, now: Cloud, vpc: Id)
  {
    && (forall s :: s in c.subnets && c.subnets[s] != vpc ==> s in now.subnets && now.subnets[s] == c.subnets[s])
    && (forall i :: i in c.interfaces && (c.interfaces[i] !in c.subnets || c.subnets[c.interfaces[i]] != vpc) ==>
       i in now.interfaces && now.interfaces[i] == c.interfaces[i])
  }

  /** Everything outside the VPC, every main association and every default list is as it
      was. */
  predicate OthersKept(c: Cloud, now: Cloud, vpc: Id)
  {
    && c.vpcs - {vpc} <= now.vpcs <= c.vpcs && now.tables == c.tables
    && GatewaysKept(c, now, vpc) && AssociationsKept(c, now, vpc) && AclsKept(c, now, vpc) && SubnetsKept(c, now, vpc)
  }

  lemma WithoutKeepsOthers(c: Cloud, calls: set<Call>, vpc: Id)
    requires forall x :: x in calls ==> Targets(c, vpc, x)
    ensures OthersKept(c, Without(c, calls), vpc)
  {
  }

  /** Whatever has been done of a teardown, nothing outside the VPC has changed. */
  lemma TeardownFrame(c: Cloud, order: seq<Id>, vpc: Id, k: nat)
    requires Lists(order, c) && k <= |Plan(c, order, vpc)| && (k < |Plan(c, order, vpc)| || vpc in c.vpcs)
    ensures OthersKept(c, Run(c, Plan(c, order, vpc)[..k]), vpc)
  {
    var plan := Plan(c, order, vpc);
    PlanLegalUpTo(c, order, vpc, k);
    RunIsWithout(c, plan[..k]);
    forall x | x in Calls(plan[..k]) ensures Targets(c, vpc, x) {
      assert x in plan;
      PlanTargets(c, order, vpc, x);
    }
    WithoutKeepsOthers(c, Calls(plan[..k]), vpc);
  }

  // ---------------------------------------------------------------- progress

  lemma Shrinks<T>(a: set<T>, b: set<T>, x: T)
    requires x in a && b == a - {x}
    ensures |b| == |a| - 1
  {}

  /** Every accepted call for the VPC takes exactly one dependent away; deleting a gateway
      that is detached, or the VPC itself, takes none. */
  lemma CallCounts(c: Cloud, vpc: Id, x: Call)
    requires Allowed(c, x) && (Targets(c, vpc, x) || x.DeleteGateway? || x.DeleteVpc?)
    ensures Dependents(Effect(c, x), vpc) == Dependents(c, vpc) - (if x.DeleteGateway? || x.DeleteVpc? then 0 else 1)
  {
    var d := Effect(c, x);
    SameSets(c, x, vpc);
    match x
    case Detach(g, _) => Shrinks(GatewaysOf(c, vpc), GatewaysOf(d, vpc), g);
    case Disassociate(a) => Shrinks(LooseAssociations(c, vpc), LooseAssociations(d, vpc), a);
    case DeleteAcl(a) => Shrinks(LooseAcls(c, vpc), LooseAcls(d, vpc), a);
    case DeleteInterface(i) => Shrinks(VpcInterfaces(c, vpc), VpcInterfaces(d, vpc), i);
    case DeleteSubnet(s) => Shrinks(SubnetsOf(c, vpc), SubnetsOf(d, vpc), s);
    case _ =>
  }

  lemma SameSets(c: Cloud, x: Call, vpc: Id)
    requires Allowed(c, x)
    ensures var d := Effect(c, x);
            && GatewaysOf(d, vpc) == (if x.Detach? then GatewaysOf(c, vpc) - {x.gateway} else GatewaysOf(c, vpc))
            && LooseAssociations(d, vpc) ==
               (if x.Disassociate? then LooseAssociations(c, vpc) - {x.association} else LooseAssociations(c, vpc))
            && LooseAcls(d, vpc) == (if x.DeleteAcl? then LooseAcls(c, vpc) - {x.acl} else LooseAcls(c, vpc))
            && SubnetsOf(d, vpc) == (if x.DeleteSubnet? then SubnetsOf(c, vpc) - {x.subnet} else SubnetsOf(c, vpc))
            && VpcInterfaces(d, vpc) ==
               (if x.DeleteInterface? then VpcInterfaces(c, vpc) - {x.eni} else VpcInterfaces(c, vpc))
  {
    var d := Effect(c, x);
    if x.DeleteSubnet? {
      forall i | i in c.interfaces ensures c.interfaces[i] != x.subnet {
        assert i !in InterfacesOf(c, x.subnet);
      }
      assert VpcInterfaces(d, vpc) == VpcInterfaces(c, vpc);
    }
    assert LooseAssociations(d, vpc) ==
           (if x.Disassociate? then LooseAssociations(c, vpc) - {x.association} else LooseAssociations(c, vpc));
    assert LooseAcls(d, vpc) == (if x.DeleteAcl? then LooseAcls(c, vpc) - {x.acl} else LooseAcls(c, vpc));
  }

  // ---------------------------------------------------------------- interrupted and resumed

  /** Gateways a partial teardown has detached but not deleted. */
  function Leaked(c: Cloud, vpc: Id, done: seq<Call>): set<Id>
  {
    set g | g in GatewaysOf(c, vpc) && Detach(g, vpc) in done && DeleteGateway(g) !in done
  }

  /** Cut after an odd number of calls, the gateway stage has detached one gateway that it
      has not deleted; cut after an even number, none. */
  lemma {:induction false} DetachedNotDeleted(gateways: seq<Id>, vpc: Id, k: nat, g: Id)
    requires NoDup(gateways) && k <= |GatewayCalls(gateways, vpc)|
    ensures |GatewayCalls(gateways, vpc)| == 2 * |gateways|
    ensures Detach(g, vpc) in GatewayCalls(gateways, vpc)[..k]
            && DeleteGateway(g) !in GatewayCalls(gateways, vpc)[..k] <==>
            k % 2 == 1 && g == gateways[k / 2]
  {
    if gateways != [] {
      var calls, first := GatewayCalls(gateways, vpc), gateways[0];
      var head, rest := [Detach(first, vpc), DeleteGateway(first)], GatewayCalls(gateways[1..], vpc);
      FlatFirst(gateways, ForGateway(vpc));
      NoDupTail(gateways);
      if k >= 2 {
        var j: nat := k - 2;
        DetachedNotDeleted(gateways[1..], vpc, j, g);
        assert calls[..k] == head + rest[..j];
        assert k / 2 == j / 2 + 1 && k % 2 == j % 2;
        if g == first && k % 2 == 1 {
          assert gateways[1..][j / 2] in gateways[1..];
        }
        GatewayCallsAre(gateways[1..], vpc, Detach(g, vpc));
        assert Detach(g, vpc) in rest[..j] ==> Detach(g, vpc) in rest;
      } else {
        DetachedNotDeleted(gateways[1..], vpc, 0, g);
        assert calls[..k] == if k == 0 then [] else [Detach(first, vpc)];
      }
    }
  }

  /** The gateway a teardown leaks when it breaks off after `k` calls: the one it has
      detached with its last call, while it is still working on the gateways. */
  lemma LeakedExactly(c: Cloud, order: seq<Id>, vpc: Id, k: nat)
    requires Lists(order, c) && k <= |Plan(c, order, vpc)|
    ensures var gateways := Pick(order, GatewaysOf(c, vpc));
            Leaked(c, vpc, Plan(c, order, vpc)[..k]) ==
            if k < 2 * |gateways| && k % 2 == 1 then {gateways[k / 2]} else {}
  {
    hide Stage2, Stage3, Stage4;
    var gateways := Pick(order, GatewaysOf(c, vpc));
    var first, plan := GatewayCalls(gateways, vpc), Plan(c, order, vpc);
    PickMembers(order, GatewaysOf(c, vpc));
    assert first == plan[..|first|];
    forall g | g in GatewaysOf(c, vpc)
      ensures g in Leaked(c, vpc, plan[..k]) <==> k < 2 * |gateways| && k % 2 == 1 && g == gateways[k / 2]
    {
      DetachedNotDeleted(gateways, vpc, 0, g);
      if k < |first| {
        assert plan[..k] == first[..k];
        DetachedNotDeleted(gateways, vpc, k, g);
      } else {
        assert plan[..k] == first + plan[|first|..k];
        GatewayCallsAre(gateways, vpc, DeleteGateway(g));
        assert DeleteGateway(g) in plan[..k];
      }
    }
    assert k < 2 * |gateways| ==> gateways[k / 2] in gateways;
  }

  /** A teardown leaks at most one gateway, wherever it is interrupted. */
  lemma AtMostOneLeaked(c: Cloud, order: seq<Id>, vpc: Id, k: nat)
    requires Lists(order, c) && k <= |Plan(c, order, vpc)|
    ensures |Leaked(c, vpc, Plan(c, order, vpc)[..k])| <= 1
  {
    LeakedExactly(c, order, vpc, k);
  }

  lemma SubsetSize<T>(a: set<T>, b: set<T>)
    requires a <= b
    ensures |a| <= |b|
  {
    if a != {} {
      var x :| x in a;
      SubsetSize(a - {x}, b - {x});
    }
  }

  lemma {:induction false} SubnetGoneIsEmpty(c: Cloud, done: seq<Call>, s: Id, i: Id)
    requires Legal(c, done) && DeleteSubnet(s) in done && i in c.interfaces && c.interfaces[i] == s
    ensures DeleteInterface(i) in done
    decreases |done|
  {
    var x := done[0];
    assert done == [x] + done[1..];
    assert i in InterfacesOf(c, s);
    if x != DeleteInterface(i) {
      SubnetGoneIsEmpty(Effect(c, x), done[1..], s, i);
    }
  }

  /** What a complete teardown leaves, as a function of the account alone: all but the VPC,
      the gateways attached to it, the associations of its tables and its lists, main and
      default ones aside, its subnets and the interfaces in them. */
  function TornDown(c: Cloud, vpc: Id): Cloud
  {
    Cloud(
      c.vpcs - {vpc},
      map g | g in c.gateways && c.gateways[g] != Some(vpc) :: c.gateways[g],
      c.tables,
      map a | a in c.associations && (c.associations[a].main == Some(true)
              || c.associations[a].table !in c.tables || c.tables[c.associations[a].table] != vpc) :: c.associations[a],
      map a | a in c.acls && (c.acls[a].isDefault == Some(true) || c.acls[a].vpc != vpc) :: c.acls[a],
      map s | s in c.subnets && c.subnets[s] != vpc :: c.subnets[s],
      map i | i in c.interfaces && (c.interfaces[i] !in c.subnets || c.subnets[c.interfaces[i]] != vpc)
            :: c.interfaces[i])
  }

  lemma TornDownBySets(c: Cloud, vpc: Id)
    ensures var d := TornDown(c, vpc);
            && d.vpcs == c.vpcs - {vpc}
            && d.gateways == c.gateways - GatewaysOf(c, vpc)
            && d.tables == c.tables
            && d.associations == c.associations - LooseAssociations(c, vpc)
            && d.acls == c.acls - LooseAcls(c, vpc)
            && d.subnets == c.subnets - SubnetsOf(c, vpc)
            && d.interfaces == c.interfaces - VpcInterfaces(c, vpc)
  {}

  /** A teardown that runs to its end leaves exactly that, in whatever order the server
      lists things. */
  lemma PlanTearsDown(c: Cloud, order: seq<Id>, vpc: Id)
    requires Lists(order, c) && vpc in c.vpcs
    ensures Run(c, Plan(c, order, vpc)) == TornDown(c, vpc)
  {
    hide TornDown;
    TornDownBySets(c, vpc);
    var calls := Calls(Plan(c, order, vpc));
    PlanLegal(c, order, vpc);
    RunIsWithout(c, Plan(c, order, vpc));
    forall x ensures x in calls <==> Targets(c, vpc, x) {
      PlanTargets(c, order, vpc, x);
    }
    WithoutAllGateways(c, calls, vpc);
    WithoutAllElse(c, calls, vpc);
    WithoutAllSubnets(c, calls, vpc);
  }

  lemma WithoutAllGateways(c: Cloud, calls: set<Call>, vpc: Id)
    requires forall x :: x in calls <==> Targets(c, vpc, x)
    ensures GatewaysWithout(c, calls) == c.gateways - GatewaysOf(c, vpc)
    ensures VpcsWithout(c, calls) == c.vpcs - {vpc}
  {
    assert forall g :: DeleteGateway(g) in calls <==> g in GatewaysOf(c, vpc);
    assert forall g, v :: Detach(g, v) in calls ==> g in GatewaysOf(c, vpc);
    assert forall v :: DeleteVpc(v) in calls <==> v == vpc;
  }

  lemma WithoutAllElse(c: Cloud, calls: set<Call>, vpc: Id)
    requires forall x :: x in calls <==> Targets(c, vpc, x)
    ensures AssociationsWithout(c, calls) == c.associations - LooseAssociations(c, vpc)
    ensures AclsWithout(c, calls) == c.acls - LooseAcls(c, vpc)
  {
    assert forall a :: Disassociate(a) in calls <==> a in LooseAssociations(c, vpc);
    assert forall a :: DeleteAcl(a) in calls <==> a in LooseAcls(c, vpc);
  }

  lemma WithoutAllSubnets(c: Cloud, calls: set<Call>, vpc: Id)
    requires forall x :: x in calls <==> Targets(c, vpc, x)
    ensures SubnetsWithout(c, calls) == c.subnets - SubnetsOf(c, vpc)
    ensures InterfacesWithout(c, calls) == c.interfaces - VpcInterfaces(c, vpc)
  {
    assert forall s :: DeleteSubnet(s) in calls <==> s in SubnetsOf(c, vpc);
    assert forall i :: DeleteInterface(i) in calls <==> i in VpcInterfaces(c, vpc);
  }

  /** Tearing down what an interrupted teardown left gives the uninterrupted result, but
      for the gateways it leaked. */
  lemma TornDownAfterPartial(c: Cloud, done: seq<Call>, vpc: Id)
    requires Legal(c, done) && forall x :: x in done ==> Targets(c, vpc, x) && !x.DeleteVpc?
    ensures TornDown(Run(c, done), vpc) ==
            TornDown(c, vpc).(gateways := TornDown(c, vpc).gateways + (map g | g in Leaked(c, vpc, done) :: None))
  {
    hide TornDown;
    TornDownBySets(c, vpc);
    TornDownBySets(Run(c, done), vpc);
    RunIsWithout(c, done);
    PartialGateways(c, done, vpc);
    PartialElse(c, done, vpc);
    PartialSubnets(c, done, vpc);
  }

  lemma PartialGateways(c: Cloud, done: seq<Call>, vpc: Id)
    requires forall x :: x in done ==> Targets(c, vpc, x) && !x.DeleteVpc?
    ensures var d := Without(c, Calls(done));
            && d.gateways - GatewaysOf(d, vpc) ==
               (c.gateways - GatewaysOf(c, vpc)) + (map g | g in Leaked(c, vpc, done) :: None)
            && d.vpcs == c.vpcs
  {
    var d := Without(c, Calls(done));
    assert forall v :: DeleteVpc(v) !in done;
    var x := d.gateways - GatewaysOf(d, vpc);
    var y := (c.gateways - GatewaysOf(c, vpc)) + (map g | g in Leaked(c, vpc, done) :: None);
    forall g ensures g in x <==> g in y
      ensures g in x ==> x[g] == y[g]
    {
    }
    assert x == y;
  }

  lemma PartialElse(c: Cloud, done: seq<Call>, vpc: Id)
    requires forall x :: x in done ==> Targets(c, vpc, x) && !x.DeleteVpc?
    ensures var d := Without(c, Calls(done));
            && d.associations - LooseAssociations(d, vpc) == c.associations - LooseAssociations(c, vpc)
            && d.acls - LooseAcls(d, vpc) == c.acls - LooseAcls(c, vpc)
  {
    assert forall a :: Disassociate(a) in done ==> Targets(c, vpc, Disassociate(a));
    assert forall a :: DeleteAcl(a) in done ==> Targets(c, vpc, DeleteAcl(a));
  }

  lemma PartialSubnets(c: Cloud, done: seq<Call>, vpc: Id)
    requires Legal(c, done) && forall x :: x in done ==> Targets(c, vpc, x) && !x.DeleteVpc?
    ensures var d := Without(c, Calls(done));
            && d.subnets - SubnetsOf(d, vpc) == c.subnets - SubnetsOf(c, vpc)
            && d.interfaces - VpcInterfaces(d, vpc) == c.interfaces - VpcInterfaces(c, vpc)
  {
    var d := Without(c, Calls(done));
    assert forall s :: DeleteSubnet(s) in done ==> Targets(c, vpc, DeleteSubnet(s));
    assert forall i :: DeleteInterface(i) in done ==> Targets(c, vpc, DeleteInterface(i));
    forall i | i in c.interfaces && DeleteSubnet(c.interfaces[i]) in done ensures DeleteInterface(i) in done {
      SubnetGoneIsEmpty(c, done, c.interfaces[i], i);
    }
  }

  lemma PlanFront(c: Cloud, order: seq<Id>, vpc: Id, k: nat)
    requires Lists(order, c) && k < |Plan(c, order, vpc)|
    ensures forall x :: x in Plan(c, order, vpc)[..k] ==> Targets(c, vpc, x) && !x.DeleteVpc?
  {
    hide Clearing;
    assert Plan(c, order, vpc)[..k] == Clearing(c, order, vpc)[..k];
    forall x | x in Plan(c, order, vpc)[..k] ensures Targets(c, vpc, x) && !x.DeleteVpc? {
      assert x in Clearing(c, order, vpc);
      PlanTargets(c, order, vpc, x);
    }
  }

  /** What is left to tear down after an initial run of a plan, and what it has leaked. */
  lemma TornDownAfterFront(c: Cloud, order: seq<Id>, vpc: Id, k: nat)
    requires Lists(order, c) && k < |Plan(c, order, vpc)|
    ensures var done := Plan(c, order, vpc)[..k];
            && Run(c, done).vpcs == c.vpcs
            && TornDown(Run(c, done), vpc) == WithDetached(TornDown(c, vpc), Leaked(c, vpc, done))
  {
    var done := Plan(c, order, vpc)[..k];
    PlanLegalUpTo(c, order, vpc, k);
    PlanFront(c, order, vpc, k);
    TornDownAfterPartial(c, done, vpc);
    RunIsWithout(c, done);
    PartialGateways(c, done, vpc);
  }

  /** `c` with these gateways besides, attached to nothing. */
  function WithDetached(c: Cloud, leaked: set<Id>): Cloud
  {
    c.(gateways := c.gateways + (map g | g in leaked :: None))
  }

  /** A failed teardown followed by a clean one ends where an undisturbed one ends, except
      that one gateway may be left behind, detached: the second listing, which asks for
      attached gateways, no longer shows it. That happens exactly if the first one stopped
      between detaching a gateway and deleting it. */
  lemma ResumedTeardown(c: Cloud, order: seq<Id>, vpc: Id, k: nat, order2: seq<Id>)
    requires Lists(order, c) && vpc in c.vpcs && k < |Plan(c, order, vpc)|
    requires Lists(order2, Run(c, Plan(c, order, vpc)[..k]))
    ensures var plan, gateways := Plan(c, order, vpc), Pick(order, GatewaysOf(c, vpc));
            var left := Run(c, plan[..k]);
            var midway := k < 2 * |gateways| && k % 2 == 1;
            && vpc in left.vpcs
            && Run(left, Plan(left, order2, vpc)) ==
               WithDetached(Run(c, plan), if midway then {gateways[k / 2]} else {})
            && (Run(left, Plan(left, order2, vpc)) == Run(c, plan) <==> !midway)
  {
    hide Plan, Run, TornDown, Lists, Pick;
    var plan, gateways := Plan(c, order, vpc), Pick(order, GatewaysOf(c, vpc));
    LeakedExactly(c, order, vpc, k);
    TornDownAfterFront(c, order, vpc, k);
    PlanTearsDown(c, order, vpc);
    PlanTearsDown(Run(c, plan[..k]), order2, vpc);
    LeakedIsGone(c, vpc, Leaked(c, vpc, plan[..k]));
    assert k < 2 * |gateways| && k % 2 == 1 ==> gateways[k / 2] in Leaked(c, vpc, plan[..k]);
  }

  lemma LeakedIsGone(c: Cloud, vpc: Id, leaked: set<Id>)
    requires leaked <= GatewaysOf(c, vpc)
    ensures WithDetached(TornDown(c, vpc), leaked) == TornDown(c, vpc) <==> leaked == {}
  {
    if leaked != {} {
      var g :| g in leaked;
      assert g !in TornDown(c, vpc).gateways && g in WithDetached(TornDown(c, vpc), leaked).gateways;
    } else {
      assert TornDown(c, vpc).gateways + (map g | g in leaked :: None) == TornDown(c, vpc).gateways;
    }
  }
}
