/** The sweep that deletes every role binding naming a service account, through a client
    that the sweep itself re-points at one namespace after another. */
module RoleBindings {
  import opened Listings
  import opened Wrappers

  datatype Subject = Subject(kind: string, name: string, namespace: string)
  datatype Key = Key(namespace: string, name: string)
  datatype RoleBinding = RoleBinding(key: Key, subjects: seq<Subject>)
  datatype Account = Account(name: string, namespace: string)
  datatype ApiError = Unavailable | NotFound

  type Cluster = map<Key, seq<Subject>>

  predicate IsBoundServiceAccount(subject: Subject, username: string, namespace: string)
  {
    subject.kind == "ServiceAccount" && subject.name == username && subject.namespace == namespace
  }

  /** One of the binding's subjects is the service account. */
  ghost predicate Names(subjects: seq<Subject>, a: Account)
  {
    exists i :: 0 <= i < |subjects| && subjects[i] == Subject("ServiceAccount", a.name, a.namespace)
  }

  /** The client of the empty namespace lists the whole cluster. */
  predicate Visible(client: string, k: Key)
  {
    client == "" || k.namespace == client
  }

  function VisibleKeys(c: Cluster, client: string): set<Key>
  {
    set k | k in c && Visible(client, k)
  }

  ghost function Matching(c: Cluster, client: string, a: Account): set<Key>
  {
    set k | k in c && Visible(client, k) && Names(c[k], a)
  }

  function Views(c: Cluster, keys: seq<Key>): (r: seq<RoleBinding>)
    requires forall k :: k in keys ==> k in c
    ensures |r| == |keys|
    ensures forall i :: 0 <= i < |keys| ==> r[i] == RoleBinding(keys[i], c[keys[i]])
  {
    seq(|keys|, i requires 0 <= i < |keys| => RoleBinding(keys[i], c[keys[i]]))
  }

  function Without(c: Cluster, gone: seq<Key>): Cluster
  {
    map k | k in c && k !in gone :: c[k]
  }

  /** `order` is the server's order of the bindings; each lies in a named namespace. */
  ghost predicate Lists(order: seq<Key>, c: Cluster)
  {
    NoDup(order) && forall k :: k in c ==> k in order && k.namespace != ""
  }

  function LastNamespace(issued: seq<Key>, client: string): string
  {
    if issued == [] then client else issued[|issued| - 1].namespace
  }

  /** How one sweep may end: the deletes issued are an initial run, in list order, of the
      matching bindings the client could see, all of them on success. All but the last
      took effect; the last did if it succeeded, and may have if it failed. The client
      stays on the namespace of the last delete. */
  ghost predicate Swept(order: seq<Key>, c: Cluster, client: string, a: Account, issued: seq<Key>,
        now: Cluster, nowClient: string, err: Option<ApiError>)
  {
    && issued <= Pick(order, Matching(c, client, a))
    && nowClient == LastNamespace(issued, client)
    && (err.None? ==> issued == Pick(order, Matching(c, client, a)) && now == Without(c, issued))
    && (err.Some? ==>
       err != Some(NotFound)
       && (now == Without(c, issued) || (issued != [] && now == Without(c, issued[..|issued| - 1]))))
  }

  // ---------------------------------------------------------------- the sweep

  class Helper {
    var cluster: Cluster
    var client: string
    ghost var faults: nat  // how many remote calls have failed for reasons of their own
    const reliable: bool  // no remote call fails for a reason of its own
    const order: seq<Key>

    method SetRoleBindingClient(namespace: string)
      modifies this`client
      ensures client == namespace
    {
      client := namespace;
    }

    method List() returns (r: Option<seq<RoleBinding>>)
      requires Lists(order, cluster)
      modifies this`faults
      ensures faults == old(faults) + if r.None? then 1 else 0
      ensures reliable ==> faults == old(faults)
      ensures forall k :: k in Pick(order, VisibleKeys(cluster, client)) ==> k in cluster
      ensures r.Some? ==> r.value == Views(cluster, Pick(order, VisibleKeys(cluster, client)))
    {
      PickMembers(order, VisibleKeys(cluster, client));
      var answered: bool := *;
      if answered || reliable {
        return Some(Views(cluster, Pick(order, VisibleKeys(cluster, client))));
      }
      faults := faults + 1;
      return None;
    }

    method Delete(name: string) returns (err: Option<ApiError>)
      modifies this`cluster, this`faults
      ensures faults == old(faults) + if err == Some(Unavailable) then 1 else 0
      ensures reliable ==> faults == old(faults)
      ensures Key(client, name) !in old(cluster) ==> err == Some(NotFound) && cluster == old(cluster)
      ensures Key(client, name) in old(cluster) ==>
                || (err == None && cluster == old(cluster) - {Key(client, name)})
                || (err == Some(Unavailable)
                    && (cluster == old(cluster) || cluster == old(cluster) - {Key(client, name)}))
    {
      if Key(client, name) !in cluster {
        return Some(NotFound);
      }
      var reached: bool := *;
      var answered: bool := *;
      if reached || reliable {
        cluster := cluster - {Key(client, name)};
      }
      if (reached && answered) || reliable {
        return None;
      }
      faults := faults + 1;
      return Some(Unavailable);
    }

    method DeleteRoleBindingsIfTheServiceAccountIsIncluded(username: string, namespace: string)
      returns (err: Option<ApiError>, ghost issued: seq<Key>)
      requires Lists(order, cluster)
      modifies this
      ensures Swept(order, old(cluster), old(client), Account(username, namespace), issued, cluster, client, err)
      ensures if err.Some? then faults > old(faults) else faults == old(faults)
      ensures reliable ==> faults == old(faults)
    {
      hide Pick, NoDup, Without, Names;
      ghost var c, hits := cluster, Matching(cluster, client, Account(username, namespace));
      issued := [];
      SweepStarts(order, c, client, hits);
      var listed := List();
      if listed.None? {
        return Some(Unavailable), [];
      }
      var list := listed.value;
      ghost var keys := Pick(order, VisibleKeys(c, client));
      for i := 0 to |list|
        invariant issued == Pick(keys[..i], hits)
        invariant cluster == Without(c, issued) && client == LastNamespace(issued, old(client))
        invariant faults == old(faults)
      {
        var binding := list[i];
        NextKey(order, c, old(client), hits, i);
        ghost var here := issued;
        for j := 0 to |binding.subjects|
          invariant issued == here && cluster == Without(c, here) && client == LastNamespace(here, old(client))
          invariant faults == old(faults)
          invariant forall m :: 0 <= m < j ==> binding.subjects[m] != Subject("ServiceAccount", username, namespace)
        {
          var subject := binding.subjects[j];
          if !IsBoundServiceAccount(subject, username, namespace) {
            continue;
          }
          HasSubject(binding.subjects, j, Account(username, namespace));
          SetRoleBindingClient(binding.key.namespace);
          issued := here + [binding.key];
          OneMoreGone(c, here, binding.key);
          err := Delete(binding.key.name);
          if err.Some? {
            PrefixOfHits(order, c, old(client), hits, i);
            return;
          }
          break;
        }
        NoSubject(binding.subjects, Account(username, namespace));
      }
      AllKeys(order, c, old(client), hits);
      return None, issued;
    }
  }

  lemma HasSubject(subjects: seq<Subject>, j: nat, a: Account)
    requires j < |subjects| && subjects[j] == Subject("ServiceAccount", a.name, a.namespace)
    ensures Names(subjects, a)
  {}

  lemma NoSubject(subjects: seq<Subject>, a: Account)
    ensures (forall m :: 0 <= m < |subjects| ==> subjects[m] != Subject("ServiceAccount", a.name, a.namespace)) ==>
            !Names(subjects, a)
  {}

  lemma SweepStarts(order: seq<Key>, c: Cluster, client: string, hits: set<Key>)
    ensures Without(c, []) == c && Pick(Pick(order, VisibleKeys(c, client))[..0], hits) == []
  {}

  /** The binding whose turn it is has not been deleted yet. */
  lemma NextKey(order: seq<Key>, c: Cluster, client: string, hits: set<Key>, i: nat)
    requires Lists(order, c) && hits <= VisibleKeys(c, client) && i < |Pick(order, VisibleKeys(c, client))|
    ensures var keys := Pick(order, VisibleKeys(c, client));
            && keys[i] in c && keys[i] in VisibleKeys(c, client)
            && keys[i] in Without(c, Pick(keys[..i], hits))
            && Pick(keys[..i + 1], hits) == Pick(keys[..i], hits) + (if keys[i] in hits then [keys[i]] else [])
            && Pick(keys[..i], hits) + [] == Pick(keys[..i], hits)
  {
    var keys := Pick(order, VisibleKeys(c, client));
    PickMembers(order, VisibleKeys(c, client));
    assert NoDup(keys[..i]) by {
      forall p, q | 0 <= p < q < |keys[..i]| ensures keys[..i][p] != keys[..i][q] {
        assert keys[p] != keys[q];
      }
    }
    PickMembers(keys[..i], hits);
    assert keys[i] in keys && keys[i] !in keys[..i];
    assert keys[..i + 1] == keys[..i] + [keys[i]];
    PickSnoc(keys[..i], keys[i], hits);
  }

  lemma OneMoreGone(c: Cluster, gone: seq<Key>, k: Key)
    ensures Without(c, gone) - {k} == Without(c, gone + [k])
    ensures (gone + [k])[..|gone + [k]| - 1] == gone
    ensures LastNamespace(gone + [k], k.namespace) == k.namespace
  {
    assert (gone + [k])[..|gone + [k]| - 1] == gone;
  }

  lemma PrefixOfHits(order: seq<Key>, c: Cluster, client: string, hits: set<Key>, i: nat)
    requires hits <= VisibleKeys(c, client) && i < |Pick(order, VisibleKeys(c, client))|
    ensures Pick(Pick(order, VisibleKeys(c, client))[..i + 1], hits) <= Pick(order, hits)
  {
    PickPick(order, VisibleKeys(c, client), hits);
    PickPrefix(Pick(order, VisibleKeys(c, client)), i + 1, hits);
  }

  lemma AllKeys(order: seq<Key>, c: Cluster, client: string, hits: set<Key>)
    requires hits <= VisibleKeys(c, client)
    ensures var keys := Pick(order, VisibleKeys(c, client)); Pick(keys[..|keys|], hits) == Pick(order, hits)
  {
    PickPick(order, VisibleKeys(c, client), hits);
    var keys := Pick(order, VisibleKeys(c, client));
    assert keys[..|keys|] == keys;
  }

  // ---------------------------------------------------------------- one sweep

  /** A successful sweep leaves exactly the bindings that do not name the account or that
      the client could not see, each as it was, and deletes no binding twice. */
  lemma SweepExact(order: seq<Key>, c: Cluster, client: string, a: Account, issued: seq<Key>,
        now: Cluster, nowClient: string)
    requires Lists(order, c) && Swept(order, c, client, a, issued, now, nowClient, None)
    ensures NoDup(issued)
    ensures forall k :: k in issued <==> k in c && (client == "" || k.namespace == client) && Names(c[k], a)
    ensures forall k :: k in now <==> k in c && !((client == "" || k.namespace == client) && Names(c[k], a))
    ensures forall k :: k in now ==> now[k] == c[k]
  {
    PickMembers(order, Matching(c, client, a));
  }

  /** The account is out of the whole cluster exactly if the client, when the sweep began,
      could see every binding that names it. */
  lemma SweepClearsCluster(order: seq<Key>, c: Cluster, client: string, a: Account, issued: seq<Key>,
        now: Cluster, nowClient: string)
    requires Lists(order, c) && Swept(order, c, client, a, issued, now, nowClient, None)
    ensures (forall k :: k in now ==> !Names(now[k], a)) <==>
            (client == "" || forall k :: k in c && Names(c[k], a) ==> k.namespace == client)
  {
    SweepExact(order, c, client, a, issued, now, nowClient);
    forall k | k in c && Names(c[k], a) && client != "" && k.namespace != client ensures k in now && Names(now[k], a) {
    }
  }

  /** A sweep that broke off touched only bindings it should delete. */
  lemma SweepFrame(order: seq<Key>, c: Cluster, client: string, a: Account, issued: seq<Key>,
        now: Cluster, nowClient: string, err: Option<ApiError>)
    requires Lists(order, c) && Swept(order, c, client, a, issued, now, nowClient, err)
    ensures NoDup(issued) && Lists(order, now)
    ensures forall k :: k in c && k !in issued ==> k in now
    ensures forall k :: k in now ==> k in c && now[k] == c[k]
    ensures forall k :: k in issued ==> k in c && Visible(client, k) && Names(c[k], a)
    ensures forall i :: 0 <= i < |issued| - 1 ==> issued[i] !in now
  {
    PickMembers(order, Matching(c, client, a));
    forall p, q | 0 <= p < q < |issued| ensures issued[p] != issued[q] {
      assert Pick(order, Matching(c, client, a))[p] == issued[p];
      assert Pick(order, Matching(c, client, a))[q] == issued[q];
    }
    forall k | k in issued ensures k in Pick(order, Matching(c, client, a)) {
    }
    forall i | 0 <= i < |issued| - 1 ensures issued[i] !in now {
      assert issued[i] == issued[..|issued| - 1][i];
    }
  }

  // ---------------------------------------------------------------- many sweeps through one helper

  datatype Sweep = Sweep(account: Account, issued: seq<Key>, now: Cluster, client: string, err: Option<ApiError>)

  /** A run of sweeps through one helper, each of which may fail. */
  ghost predicate Sweeps(order: seq<Key>, c: Cluster, client: string, run: seq<Sweep>)
    decreases |run|
  {
    run == [] ||
    (var s := run[0];
     && Swept(order, c, client, s.account, s.issued, s.now, s.client, s.err)
     && Sweeps(order, s.now, s.client, run[1..]))
  }

  function After(c: Cluster, run: seq<Sweep>): Cluster
  {
    if run == [] then c else run[|run| - 1].now
  }

  lemma FirstOf(order: seq<Key>, c: Cluster, client: string, run: seq<Sweep>)
    requires Lists(order, c) && Sweeps(order, c, client, run) && run != []
    ensures var s := run[0];
            && Lists(order, s.now) && Sweeps(order, s.now, s.client, run[1..])
            && (forall k :: k in s.now ==> k in c && s.now[k] == c[k])
            && (forall k :: k in c && k !in s.now ==> Visible(client, k))
            && s.client == LastNamespace(s.issued, client)
            && (s.issued != [] ==> s.client != "" && Visible(client, s.issued[|s.issued| - 1]))
    ensures After(c, run) == After(run[0].now, run[1..])
    ensures forall i :: 1 <= i < |run| ==> run[i] == run[1..][i - 1]
  {
    var s := run[0];
    SweepFrame(order, c, client, s.account, s.issued, s.now, s.client, s.err);
    assert s.issued != [] ==> s.issued[|s.issued| - 1] in s.issued;
  }

  /** Sweeps only delete. */
  lemma {:induction false} OnlyDeletes(order: seq<Key>, c: Cluster, client: string, run: seq<Sweep>)
    requires Lists(order, c) && Sweeps(order, c, client, run)
    ensures forall k :: k in After(c, run) ==> k in c && After(c, run)[k] == c[k]
    decreases |run|
  {
    hide Lists, Sweeps, Swept;
    if run != [] {
      FirstOf(order, c, client, run);
      OnlyDeletes(order, run[0].now, run[0].client, run[1..]);
    }
  }

  /** Once the client is on one namespace, no later sweep leaves it: bindings anywhere else
      stay in the cluster whichever accounts are swept and however often. */
  lemma {:induction false} NeverLeavesNamespace(order: seq<Key>, c: Cluster, client: string, run: seq<Sweep>)
    requires Lists(order, c) && client != "" && Sweeps(order, c, client, run)
    ensures forall k :: k in c && k.namespace != client ==> k in After(c, run) && After(c, run)[k] == c[k]
    ensures forall i :: 0 <= i < |run| ==> run[i].client == client
    decreases |run|
  {
    hide Lists, Sweeps, Swept;
    if run != [] {
      FirstOf(order, c, client, run);
      NeverLeavesNamespace(order, run[0].now, client, run[1..]);
    }
  }

  /** The first sweep that issues any delete fixes the namespace of all that follow. */
  lemma FirstDeleteDecides(order: seq<Key>, c: Cluster, client: string, run: seq<Sweep>)
    requires Lists(order, c) && Sweeps(order, c, client, run) && run != [] && run[0].issued != []
    ensures var there := run[0].issued[|run[0].issued| - 1].namespace;
            && (forall i :: 0 <= i < |run| ==> run[i].client == there)
            && (forall k :: k in run[0].now && k.namespace != there ==> k in After(c, run))
  {
    hide Lists, Sweeps, Swept;
    FirstOf(order, c, client, run);
    NeverLeavesNamespace(order, run[0].now, run[0].client, run[1..]);
  }

  /** Sweeps of one account after another, none of which fails. */
  ghost predicate AllSucceed(run: seq<Sweep>)
  {
    forall i :: 0 <= i < |run| ==> run[i].err == None
  }

  function AccountsOf(run: seq<Sweep>): (r: seq<Account>)
    ensures |r| == |run|
    ensures forall i :: 0 <= i < |run| ==> r[i] == run[i].account
  {
    seq(|run|, i requires 0 <= i < |run| => run[i].account)
  }

  /** Some account of the list is named. */
  ghost predicate NamesAny(subjects: seq<Subject>, accounts: seq<Account>)
  {
    exists i :: 0 <= i < |accounts| && Names(subjects, accounts[i])
  }

  lemma NamesNone(subjects: seq<Subject>)
    ensures !NamesAny(subjects, [])
  {}

  lemma FirstSucceeded(order: seq<Key>, c: Cluster, client: string, run: seq<Sweep>)
    requires Lists(order, c) && Sweeps(order, c, client, run) && run != [] && AllSucceed(run)
    ensures AllSucceed(run[1..]) && AccountsOf(run)[1..] == AccountsOf(run[1..])
    ensures run[0].issued == Pick(order, Matching(c, client, run[0].account))
    ensures var s := run[0]; forall k :: k in s.now <==> k in c && !(Visible(client, k) && Names(c[k], s.account))
    ensures forall k :: k in c ==>
              (NamesAny(c[k], AccountsOf(run)) <==> Names(c[k], run[0].account) || NamesAny(c[k], AccountsOf(run[1..])))
  {
    var s := run[0];
    SweepExact(order, c, client, s.account, s.issued, s.now, s.client);
    assert forall i :: 0 <= i < |run[1..]| ==> run[1..][i] == run[i + 1];
    assert AccountsOf(run)[1..] == AccountsOf(run[1..]);
    forall k | k in c
      ensures NamesAny(c[k], AccountsOf(run)) <==> Names(c[k], run[0].account) || NamesAny(c[k], AccountsOf(run[1..]))
    {
    }
  }

  /** With the client on one namespace, successful sweeps clear the accounts from that
      namespace and from nowhere else. */
  lemma {:induction false} NamespaceSwept(order: seq<Key>, c: Cluster, client: string, run: seq<Sweep>)
    requires Lists(order, c) && client != "" && Sweeps(order, c, client, run) && AllSucceed(run)
    ensures forall k :: k in After(c, run) <==> k in c && !(k.namespace == client && NamesAny(c[k], AccountsOf(run)))
    ensures forall k :: k in After(c, run) ==> After(c, run)[k] == c[k]
    decreases |run|
  {
    hide Lists, Sweeps, Swept, Names, NamesAny, NoDup;
    if run == [] {
      forall k | k in c ensures !NamesAny(c[k], AccountsOf(run)) {
        NamesNone(c[k]);
      }
    } else {
      var s, rest := run[0], run[1..];
      FirstOf(order, c, client, run);
      FirstSucceeded(order, c, client, run);
      NeverLeavesNamespace(order, c, client, run);
      NamespaceSwept(order, s.now, client, rest);
    }
  }

  /** What a caller can tell before sweeping these accounts one after the other: with the
      client on one namespace, all their bindings lie there; with the client on all of
      them, look at the first account that has a binding at all, and the other accounts'
      bindings, unless they name the first one too, lie in the namespace of the binding of
      the first that is listed last. */
  ghost predicate InReach(order: seq<Key>, c: Cluster, client: string, accounts: seq<Account>)
    decreases |accounts|
  {
    if client != "" then forall k :: k in c && NamesAny(c[k], accounts) ==> k.namespace == client
    else if accounts == [] then true
    else
      var first := Pick(order, Matching(c, "", accounts[0]));
      if first == [] then InReach(order, c, "", accounts[1..])
      else
        forall k :: k in c && NamesAny(c[k], accounts[1..]) && !Names(c[k], accounts[0]) ==>
          k.namespace == first[|first| - 1].namespace
  }

  ghost predicate NobodyNamed(c: Cluster, accounts: seq<Account>)
  {
    forall k :: k in c ==> !NamesAny(c[k], accounts)
  }

  /** Successful sweeps of several accounts through one helper, wherever its client is, take
      all of them out of the cluster if and only if they were in reach at the start. */
  lemma {:induction false} SweepsClearCluster(order: seq<Key>, c: Cluster, client: string, run: seq<Sweep>)
    requires Lists(order, c) && Sweeps(order, c, client, run) && AllSucceed(run)
    ensures NobodyNamed(After(c, run), AccountsOf(run)) <==> InReach(order, c, client, AccountsOf(run))
    decreases |run|
  {
    hide Lists, Sweeps, Swept, Names, NamesAny, NoDup, Pick;
    if client != "" {
      NamespaceSwept(order, c, client, run);
    } else if run == [] {
      forall k | k in c ensures !NamesAny(c[k], AccountsOf(run)) {
        NamesNone(c[k]);
      }
    } else {
      FirstOf(order, c, "", run);
      FirstSucceeded(order, c, "", run);
      if run[0].issued == [] {
        FirstFoundNothing(order, c, run);
        OnlyDeletes(order, c, "", run);
        SweepsClearCluster(order, c, "", run[1..]);
      } else {
        FirstFoundSome(order, c, run);
      }
    }
  }

  lemma FirstFoundNothing(order: seq<Key>, c: Cluster, run: seq<Sweep>)
    requires Lists(order, c) && Sweeps(order, c, "", run) && run != [] && AllSucceed(run) && run[0].issued == []
    ensures run[0].now == c && run[0].client == "" && forall k :: k in c ==> !Names(c[k], run[0].account)
  {
    SweepExact(order, c, "", run[0].account, [], run[0].now, run[0].client);
  }

  lemma FirstFoundSome(order: seq<Key>, c: Cluster, run: seq<Sweep>)
    requires Lists(order, c) && Sweeps(order, c, "", run) && run != [] && AllSucceed(run) && run[0].issued != []
    ensures NobodyNamed(After(c, run), AccountsOf(run)) <==> InReach(order, c, "", AccountsOf(run))
  {
    hide Lists, Sweeps, Swept, Names, NamesAny, NoDup, Pick;
    var s, rest := run[0], run[1..];
    var there, later := s.issued[|s.issued| - 1].namespace, AccountsOf(run[1..]);
    FirstOf(order, c, "", run);
    FirstSucceeded(order, c, "", run);
    NamespaceSwept(order, s.now, there, rest);
    var end := After(c, run);
    assert forall k :: k in end <==>
           k in c && !Names(c[k], s.account) && !(k.namespace == there && NamesAny(c[k], later));
    forall k | k in c && NamesAny(c[k], later) && !Names(c[k], s.account) && k.namespace != there
      ensures k in end && NamesAny(end[k], AccountsOf(run))
    {
    }
  }

  /** Two accounts bound in two namespaces: the second sweep deletes nothing. */
  lemma SecondSweepMisses()
    ensures exists order: seq<Key>, c: Cluster, run: seq<Sweep> ::
              && Lists(order, c) && Sweeps(order, c, "", run) && AllSucceed(run) && |run| == 2
              && Matching(c, "", run[1].account) != {} && run[1].issued == []
              && Matching(After(c, run), "", run[1].account) != {}
  {
    hide Pick;
    var a, b := Account("builder", "ci"), Account("deployer", "ci");
    var ka, kb := Key("blue", "build"), Key("green", "deploy");
    var order := [ka, kb];
    var c: Cluster := map[ka := [Subject("ServiceAccount", "builder", "ci")],
        kb := [Subject("ServiceAccount", "deployer", "ci")]];
    HasSubject(c[ka], 0, a);
    HasSubject(c[kb], 0, b);
    var left := Without(c, [ka]);
    var run := [Sweep(a, [ka], left, "blue", None), Sweep(b, [], left, "blue", None)];
    assert Matching(c, "", a) == {ka} && Matching(left, "blue", b) == {};
    PickNone(order);
    PickTwo(ka, kb);
    assert Without(left, []) == left;
    assert run[1..] == [run[1]] && run[1..][1..] == [];
    assert Swept(order, c, "", a, [ka], left, "blue", None);
    assert Swept(order, left, "blue", b, [], left, "blue", None);
    assert Sweeps(order, left, "blue", run[1..]);
    assert Sweeps(order, c, "", run);
    assert kb in Matching(After(c, run), "", b) && kb in Matching(c, "", b);
  }

  lemma PickTwo(x: Key, y: Key)
    requires x != y
    ensures Pick([x, y], {x}) == [x]
  {
    assert [x, y][1..] == [y] && [y][1..] == [];
    assert Pick([y], {x}) == [];
  }
}
