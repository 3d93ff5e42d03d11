/** The cloud resources of an account, the destructive calls on them, and the order in
    which a VPC is torn down. */
module VpcPlan {
  import opened Listings
  import opened Wrappers

  type Id = string

  datatype Association = Association(table: Id, main: Option<bool>)
  datatype Acl = Acl(vpc: Id, isDefault: Option<bool>)

  /** Gateways by attachment, route tables and subnets by VPC, interfaces by subnet. */
  datatype Cloud = Cloud(
    vpcs: set<Id>,
    gateways: map<Id, Option<Id>>,
    tables: map<Id, Id>,
    associations: map<Id, Association>,
    acls: map<Id, Acl>,
    subnets: map<Id, Id>,
    interfaces: map<Id, Id>)

  datatype Call =
    | Detach(gateway: Id, vpc: Id)
    | DeleteGateway(gateway: Id)
    | Disassociate(association: Id)
    | DeleteAcl(acl: Id)
    | DeleteInterface(eni: Id)
    | DeleteSubnet(subnet: Id)
    | DeleteVpc(vpc: Id)

  // ---------------------------------------------------------------- what belongs to a VPC

  function GatewaysOf(c: Cloud, vpc: Id): set<Id>
  {
    set g | g in c.gateways && c.gateways[g] == Some(vpc)
  }

  function TablesOf(c: Cloud, vpc: Id): set<Id>
  {
    set t | t in c.tables && c.tables[t] == vpc
  }

  function AssociationsOf(c: Cloud, table: Id): set<Id>
  {
    set a | a in c.associations && c.associations[a].table == table
  }

  function AclsOf(c: Cloud, vpc: Id): set<Id>
  {
    set a | a in c.acls && c.acls[a].vpc == vpc
  }

  function SubnetsOf(c: Cloud, vpc: Id): set<Id>
  {
    set s | s in c.subnets && c.subnets[s] == vpc
  }

  function InterfacesOf(c: Cloud, subnet: Id): set<Id>
  {
    set i | i in c.interfaces && c.interfaces[i] == subnet
  }

  predicate IsMain(c: Cloud, a: Id)
  {
    a in c.associations && c.associations[a].main == Some(true)
  }

  predicate IsDefault(c: Cloud, a: Id)
  {
    a in c.acls && c.acls[a].isDefault == Some(true)
  }

  /** The associations of a VPC that stand in the way of deleting it. */
  function LooseAssociations(c: Cloud, vpc: Id): set<Id>
  {
    set a | a in c.associations && c.associations[a].table in TablesOf(c, vpc) && !IsMain(c, a)
  }

  function LooseAcls(c: Cloud, vpc: Id): set<Id>
  {
    set a | a in AclsOf(c, vpc) && !IsDefault(c, a)
  }

  function VpcInterfaces(c: Cloud, vpc: Id): set<Id>
  {
    set i | i in c.interfaces && c.interfaces[i] in SubnetsOf(c, vpc)
  }

  /** Nothing is left that the cloud would not cascade: no attached gateway, no association
      of one of the VPC's tables but main ones, no list but the default one, no subnet and no
      interface in a subnet. */
  predicate Bare(c: Cloud, vpc: Id)
  {
    && (forall g :: g in c.gateways ==> c.gateways[g] != Some(vpc))
    && (forall a :: a in c.associations && c.associations[a].main != Some(true) ==>
          c.associations[a].table !in c.tables || c.tables[c.associations[a].table] != vpc)
    && (forall a :: a in c.acls && c.acls[a].isDefault != Some(true) ==> c.acls[a].vpc != vpc)
    && (forall s :: s in c.subnets ==> c.subnets[s] != vpc)
    && (forall i :: i in c.interfaces && c.interfaces[i] in c.subnets ==> c.subnets[c.interfaces[i]] != vpc)
  }

  /** How many dependents a VPC has left. */
  function Dependents(c: Cloud, vpc: Id): nat
  {
    |GatewaysOf(c, vpc)| + |LooseAssociations(c, vpc)| + |LooseAcls(c, vpc)| + |SubnetsOf(c, vpc)| +
        |VpcInterfaces(c, vpc)|
  }

  // ---------------------------------------------------------------- calls

  /** The server's rules: the target exists; an attached gateway, a subnet with interfaces,
      a main association, a default list and a VPC with dependents are not removed. */
  predicate Allowed(c: Cloud, call: Call)
  {
    match call
    case Detach(g, vpc) => g in c.gateways && c.gateways[g] == Some(vpc)
    case DeleteGateway(g) => g in c.gateways && c.gateways[g].None?
    case Disassociate(a) => a in c.associations && !IsMain(c, a)
    case DeleteAcl(a) => a in c.acls && !IsDefault(c, a)
    case DeleteInterface(i) => i in c.interfaces
    case DeleteSubnet(s) => s in c.subnets && InterfacesOf(c, s) == {}
    case DeleteVpc(vpc) => vpc in c.vpcs && Bare(c, vpc)
  }

  function Effect(c: Cloud, call: Call): Cloud
  {
    match call
    case Detach(g, _) => c.(gateways := c.gateways[g := None])
    case DeleteGateway(g) => c.(gateways := c.gateways - {g})
    case Disassociate(a) => c.(associations := c.associations - {a})
    case DeleteAcl(a) => c.(acls := c.acls - {a})
    case DeleteInterface(i) => c.(interfaces := c.interfaces - {i})
    case DeleteSubnet(s) => c.(subnets := c.subnets - {s})
    case DeleteVpc(vpc) => c.(vpcs := c.vpcs - {vpc})
  }

  function Run(c: Cloud, calls: seq<Call>): Cloud
    decreases |calls|
  {
    if calls == [] then c else Run(Effect(c, calls[0]), calls[1..])
  }

  /** No call of the list gives the server cause to refuse it when its turn comes. */
  predicate Legal(c: Cloud, calls: seq<Call>)
    decreases |calls|
  {
    calls == [] || (Allowed(c, calls[0]) && Legal(Effect(c, calls[0]), calls[1..]))
  }

  // ---------------------------------------------------------------- listings

  /** `order` names every resource of the account, once. */
  ghost predicate Lists(order: seq<Id>, c: Cloud)
  {
    && NoDup(order)
    && (forall x ::
          || x in c.gateways || x in c.tables || x in c.associations
          || x in c.acls || x in c.subnets || x in c.interfaces
          ==> x in order)
  }

  // ---------------------------------------------------------------- the plan

  /** What is done for each thing of a listing, with what that depends on. */
  datatype Item =
    | ForGateway(vpc: Id)
    | ForAssociation(c: Cloud)
    | ForTable(c: Cloud, order: seq<Id>)
    | ForAcl(c: Cloud)
    | ForInterface
    | ForSubnet(c: Cloud, order: seq<Id>)

  /** The calls for each thing listed, one after the other. */
  function Flat(xs: seq<Id>, item: Item): seq<Call>
    decreases if item.ForTable? || item.ForSubnet? then 1 else 0, |xs|
  {
    if xs == [] then [] else Each(item, xs[0]) + Flat(xs[1..], item)
  }

  function Each(item: Item, x: Id): seq<Call>
    decreases if item.ForTable? || item.ForSubnet? then 1 else 0, 0
  {
    match item
    case ForGateway(vpc) => [Detach(x, vpc), DeleteGateway(x)]
    case ForAssociation(c) => if IsMain(c, x) then [] else [Disassociate(x)]
    case ForTable(c, order) => Flat(Pick(order, AssociationsOf(c, x)), ForAssociation(c))
    case ForAcl(c) => if IsDefault(c, x) then [] else [DeleteAcl(x)]
    case ForInterface => [DeleteInterface(x)]
    case ForSubnet(c, order) => Flat(Pick(order, InterfacesOf(c, x)), ForInterface) + [DeleteSubnet(x)]
  }

  function GatewayCalls(gateways: seq<Id>, vpc: Id): seq<Call>
  {
    Flat(gateways, ForGateway(vpc))
  }

  function DisassociateCalls(c: Cloud, associations: seq<Id>): seq<Call>
  {
    Flat(associations, ForAssociation(c))
  }

  function TableCalls(c: Cloud, order: seq<Id>, tables: seq<Id>): seq<Call>
  {
    Flat(tables, ForTable(c, order))
  }

  function AclCalls(c: Cloud, acls: seq<Id>): seq<Call>
  {
    Flat(acls, ForAcl(c))
  }

  function InterfaceCalls(interfaces: seq<Id>): seq<Call>
  {
    Flat(interfaces, ForInterface)
  }

  function SubnetCalls(c: Cloud, order: seq<Id>, subnets: seq<Id>): seq<Call>
  {
    Flat(subnets, ForSubnet(c, order))
  }

  lemma FlatFirst(xs: seq<Id>, item: Item)
    requires xs != []
    ensures Flat(xs, item) == Each(item, xs[0]) + Flat(xs[1..], item)
  {}

  lemma {:induction false} FlatMember(xs: seq<Id>, item: Item, x: Call)
    ensures x in Flat(xs, item) <==> exists t :: t in xs && x in Each(item, t)
  {
    if xs != [] {
      FlatFirst(xs, item);
      FlatMember(xs[1..], item, x);
      assert xs == [xs[0]] + xs[1..];
    }
  }

  lemma FlatEnds(xs: seq<Id>, item: Item)
    ensures Flat(xs[..0], item) == [] && Flat(xs[|xs|..], item) == [] && xs[0..] == xs && xs[..|xs|] == xs
  {}

  lemma {:induction false} FlatCut(xs: seq<Id>, item: Item, i: nat)
    requires i < |xs|
    ensures Flat(xs[..i + 1], item) == Flat(xs[..i], item) + Each(item, xs[i])
    ensures Flat(xs[i..], item) == Each(item, xs[i]) + Flat(xs[i + 1..], item)
  {
    hide Each, Flat;
    FlatFirst(xs[i..], item);
    FlatFirst(xs[..i + 1], item);
    assert xs[i..][1..] == xs[i + 1..];
    if i == 0 {
      FlatEnds(xs[..1], item);
      assert xs[..1][1..] == xs[..0] && xs[..1][1..] == xs[..1][1..][..0];
      FlatEnds(xs, item);
    } else {
      FlatFirst(xs[..i], item);
      FlatCut(xs[1..], item, i - 1);
      assert xs[1..][..i] == xs[..i + 1][1..] && xs[1..][..i - 1] == xs[..i][1..];
    }
  }

  function Stage1(c: Cloud, order: seq<Id>, vpc: Id): seq<Call>
  {
    GatewayCalls(Pick(order, GatewaysOf(c, vpc)), vpc)
  }

  function Stage2(c: Cloud, order: seq<Id>, vpc: Id): seq<Call>
  {
    TableCalls(c, order, Pick(order, TablesOf(c, vpc)))
  }

  function Stage3(c: Cloud, order: seq<Id>, vpc: Id): seq<Call>
  {
    AclCalls(c, Pick(order, AclsOf(c, vpc)))
  }

  function Stage4(c: Cloud, order: seq<Id>, vpc: Id): seq<Call>
  {
    SubnetCalls(c, order, Pick(order, SubnetsOf(c, vpc)))
  }

  /** Everything that comes before the VPC itself. */
  function Clearing(c: Cloud, order: seq<Id>, vpc: Id): seq<Call>
  {
    Stage1(c, order, vpc) + Stage2(c, order, vpc) + Stage3(c, order, vpc) + Stage4(c, order, vpc)
  }

  /** The calls of an undisturbed teardown. */
  function Plan(c: Cloud, order: seq<Id>, vpc: Id): seq<Call>
  {
    Clearing(c, order, vpc) + [DeleteVpc(vpc)]
  }

  // ---------------------------------------------------------------- runs

  lemma {:induction false} RunConcat(c: Cloud, a: seq<Call>, b: seq<Call>)
    ensures Run(c, a + b) == Run(Run(c, a), b)
    ensures Legal(c, a + b) <==> Legal(c, a) && Legal(Run(c, a), b)
    decreases |a|
  {
    if a == [] {
      assert a + b == b;
    } else {
      RunConcat(Effect(c, a[0]), a[1..], b);
      assert (a + b)[1..] == a[1..] + b;
    }
  }

  /** The same as a set of removals: what a run leaves does not depend on its order. */
  function Without(c: Cloud, calls: set<Call>): Cloud
  {
    Cloud(VpcsWithout(c, calls), GatewaysWithout(c, calls), c.tables, AssociationsWithout(c, calls),
          AclsWithout(c, calls), SubnetsWithout(c, calls), InterfacesWithout(c, calls))
  }

  function VpcsWithout(c: Cloud, calls: set<Call>): set<Id>
  {
    set v | v in c.vpcs && DeleteVpc(v) !in calls
  }

  function GatewaysWithout(c: Cloud, calls: set<Call>): map<Id, Option<Id>>
  {
    map g | g in c.gateways && DeleteGateway(g) !in calls ::
      if c.gateways[g].Some? && Detach(g, c.gateways[g].value) in calls then None else c.gateways[g]
  }

  function AssociationsWithout(c: Cloud, calls: set<Call>): map<Id, Association>
  {
    map a | a in c.associations && Disassociate(a) !in calls :: c.associations[a]
  }

  function AclsWithout(c: Cloud, calls: set<Call>): map<Id, Acl>
  {
    map a | a in c.acls && DeleteAcl(a) !in calls :: c.acls[a]
  }

  function SubnetsWithout(c: Cloud, calls: set<Call>): map<Id, Id>
  {
    map s | s in c.subnets && DeleteSubnet(s) !in calls :: c.subnets[s]
  }

  function InterfacesWithout(c: Cloud, calls: set<Call>): map<Id, Id>
  {
    map i | i in c.interfaces && DeleteInterface(i) !in calls :: c.interfaces[i]
  }

  function Calls(s: seq<Call>): set<Call>
  {
    set x | x in s
  }

  lemma EffectWithout(c: Cloud, done: set<Call>, call: Call)
    requires call.Detach? ==>
             call.gateway in Without(c, done).gateways && Without(c, done).gateways[call.gateway] == Some(call.vpc)
    ensures Effect(Without(c, done), call) == Without(c, done + {call})
  {
    hide VpcsWithout, GatewaysWithout, AssociationsWithout, AclsWithout, SubnetsWithout, InterfacesWithout;
    GatewaysMore(c, done, call);
    OthersMore(c, done, call);
  }

  lemma GatewaysMore(c: Cloud, done: set<Call>, call: Call)
    requires call.Detach? ==>
             call.gateway in GatewaysWithout(c, done) && GatewaysWithout(c, done)[call.gateway] == Some(call.vpc)
    ensures GatewaysWithout(c, done + {call}) ==
            match call
            case Detach(g, _) => GatewaysWithout(c, done)[g := None]
            case DeleteGateway(g) => GatewaysWithout(c, done) - {g}
            case _ => GatewaysWithout(c, done)
  {}

  lemma OthersMore(c: Cloud, done: set<Call>, call: Call)
    ensures VpcsWithout(c, done + {call}) == VpcsWithout(c, done) - if call.DeleteVpc? then {call.vpc} else {}
    ensures AssociationsWithout(c, done + {call}) ==
            AssociationsWithout(c, done) - if call.Disassociate? then {call.association} else {}
    ensures AclsWithout(c, done + {call}) == AclsWithout(c, done) - if call.DeleteAcl? then {call.acl} else {}
    ensures SubnetsWithout(c, done + {call}) ==
            SubnetsWithout(c, done) - if call.DeleteSubnet? then {call.subnet} else {}
    ensures InterfacesWithout(c, done + {call}) ==
            InterfacesWithout(c, done) - if call.DeleteInterface? then {call.eni} else {}
  {}

  lemma {:induction false} LegalRunIsWithout(c: Cloud, done: set<Call>, calls: seq<Call>)
    requires Legal(Without(c, done), calls)
    ensures Run(Without(c, done), calls) == Without(c, done + Calls(calls))
    decreases |calls|
  {
    if calls == [] {
      assert done + Calls(calls) == done;
    } else {
      EffectWithout(c, done, calls[0]);
      LegalRunIsWithout(c, done + {calls[0]}, calls[1..]);
      assert calls == [calls[0]] + calls[1..];
      assert done + {calls[0]} + Calls(calls[1..]) == done + Calls(calls);
    }
  }

  lemma RunIsWithout(c: Cloud, calls: seq<Call>)
    requires Legal(c, calls)
    ensures Run(c, calls) == Without(c, Calls(calls))
  {
    var w := Without(c, {});
    assert w.vpcs == c.vpcs && w.gateways == c.gateways && w.associations == c.associations;
    assert w.acls == c.acls && w.subnets == c.subnets && w.interfaces == c.interfaces;
    assert w == c;
    LegalRunIsWithout(c, {}, calls);
    assert {} + Calls(calls) == Calls(calls);
  }
}
