/** Switching the cluster's default storage class: take the mark off every class that
    carries one, then put it on the chosen class. */
module StorageClasses {
  import opened Listings
  import opened Wrappers

  type Annotations = map<string, string>
  type Classes = map<string, Annotations>

  datatype StorageClass = StorageClass(name: string, annotations: Annotations)
  datatype ApiError = Unavailable | NotFound | BadToggle

  /** A merge patch that sets one annotation. */
  datatype Patch = Annotate(key: string, value: string)

  const DEFAULT_CLASS := "storageclass.kubernetes.io/is-default-class"

  function GenPatchToToggleDefaultStorageClass(toggle: string): Result<Patch, ApiError>
  {
    if toggle != "true" && toggle != "false" then Err(BadToggle) else Ok(Annotate(DEFAULT_CLASS, toggle))
  }

  /** The classes Kubernetes treats as default. */
  function Defaults(c: Classes): set<string>
  {
    set x | x in c && DEFAULT_CLASS in c[x] && c[x][DEFAULT_CLASS] == "true"
  }

  /** The classes whose mark is present and not empty, whatever it says. */
  function Marked(c: Classes): set<string>
  {
    set x | x in c && DEFAULT_CLASS in c[x] && c[x][DEFAULT_CLASS] != ""
  }

  function Patched(c: Classes, name: string, p: Patch): Classes
  {
    if name in c then c[name := c[name][p.key := p.value]] else c
  }

  function PatchedAll(c: Classes, names: seq<string>, p: Patch): (r: Classes)
    ensures r.Keys == c.Keys
  {
    if names == [] then c else Patched(PatchedAll(c, names[..|names| - 1], p), names[|names| - 1], p)
  }

  function Views(c: Classes, names: seq<string>): (r: seq<StorageClass>)
    requires forall x :: x in names ==> x in c
    ensures |r| == |names|
    ensures forall i :: 0 <= i < |names| ==> r[i] == StorageClass(names[i], c[names[i]])
  {
    seq(|names|, i requires 0 <= i < |names| => StorageClass(names[i], c[names[i]]))
  }

  function NamesOf(list: seq<StorageClass>): (r: seq<string>)
    ensures |r| == |list|
    ensures forall i :: 0 <= i < |list| ==> r[i] == list[i].name
  {
    seq(|list|, i requires 0 <= i < |list| => list[i].name)
  }

  ghost predicate Lists(order: seq<string>, c: Classes)
  {
    NoDup(order) && forall x :: x in c ==> x in order
  }

  /** How a series of patches of one value ended: those issued are an initial run of the
      names; all but the last took effect, the last did if it succeeded, and may have if it
      failed; only a name the cluster does not know is ever refused. */
  ghost predicate PatchRun(c: Classes, names: seq<string>, p: Patch, issued: seq<string>, now: Classes,
        err: Option<ApiError>)
  {
    && issued <= names
    && (err.None? ==> issued == names && now == PatchedAll(c, names, p) && forall x :: x in names ==> x in c)
    && (err.Some? ==> issued != [] && err.value != BadToggle)
    && (err == Some(NotFound) ==> issued[|issued| - 1] !in c)
    && (err == Some(Unavailable) ==> issued[|issued| - 1] in c)
    && (err.Some? ==> now == PatchedAll(c, issued, p) || now == PatchedAll(c, issued[..|issued| - 1], p))
  }

  // ---------------------------------------------------------------- the helper

  class Helper {
    var classes: Classes
    ghost var faults: nat  // how many remote calls have failed for reasons of their own
    const reliable: bool  // no remote call fails for a reason of its own
    const order: seq<string>

    method ListStorageClasses() returns (r: Option<seq<StorageClass>>)
      requires Lists(order, classes)
      modifies this`faults
      ensures faults == old(faults) + if r.None? then 1 else 0
      ensures reliable ==> faults == old(faults)
      ensures forall x :: x in Pick(order, classes.Keys) <==> x in classes
      ensures r.Some? ==> r.value == Views(classes, Pick(order, classes.Keys))
    {
      PickMembers(order, classes.Keys);
      var answered: bool := *;
      if answered || reliable {
        return Some(Views(classes, Pick(order, classes.Keys)));
      }
      faults := faults + 1;
      return None;
    }

    method Patch(name: string, p: Patch) returns (err: Option<ApiError>)
      modifies this
      ensures faults == old(faults) + if err == Some(Unavailable) then 1 else 0
      ensures reliable ==> faults == old(faults)
      ensures name !in old(classes) ==> err == Some(NotFound) && classes == old(classes)
      ensures name in old(classes) ==>
                || (err == None && classes == Patched(old(classes), name, p))
                || (err == Some(Unavailable) && (classes == old(classes) || classes == Patched(old(classes), name, p)))
    {
      if name !in classes {
        return Some(NotFound);
      }
      var reached: bool := *;
      var answered: bool := *;
      if reached || reliable {
        classes := Patched(classes, name, p);
      }
      if (reached && answered) || reliable {
        return None;
      }
      faults := faults + 1;
      return Some(Unavailable);
    }

    /** The listed classes with a mark that is not empty, in order. */
    method GetDefaultStorageClasses(list: seq<StorageClass>, ghost c: Classes) returns (defaultList: seq<StorageClass>)
      requires forall i :: 0 <= i < |list| ==> list[i].name in c && list[i].annotations == c[list[i].name]
      ensures NamesOf(defaultList) == Pick(NamesOf(list), Marked(c))
      ensures forall sc :: sc in defaultList <==>
                && sc in list && "storageclass.kubernetes.io/is-default-class" in sc.annotations
                && sc.annotations["storageclass.kubernetes.io/is-default-class"] != ""
    {
      defaultList := [];
      for i := 0 to |list|
        invariant NamesOf(defaultList) == Pick(NamesOf(list)[..i], Marked(c))
        invariant forall sc :: sc in defaultList <==>
                    && sc in list[..i] && "storageclass.kubernetes.io/is-default-class" in sc.annotations
                    && sc.annotations["storageclass.kubernetes.io/is-default-class"] != ""
      {
        var sc := list[i];
        assert NamesOf(list)[..i + 1] == NamesOf(list)[..i] + [sc.name] && list[..i + 1] == list[..i] + [sc];
        PickSnoc(NamesOf(list)[..i], sc.name, Marked(c));
        if DEFAULT_CLASS !in sc.annotations {
          continue;
        }
        var value := sc.annotations[DEFAULT_CLASS];
        if value != "" {
          defaultList := defaultList + [sc];
        }
      }
      assert NamesOf(list)[..|list|] == NamesOf(list) && list[..|list|] == list;
    }

    method PatchStorageClasses(storageClasses: seq<StorageClass>, p: Patch)
          returns (err: Option<ApiError>, ghost issued: seq<string>)
      modifies this
      ensures PatchRun(old(classes), NamesOf(storageClasses), p, issued, classes, err)
      ensures faults == old(faults) + if err == Some(Unavailable) then 1 else 0
      ensures reliable ==> faults == old(faults)
    {
      ghost var c, names := classes, NamesOf(storageClasses);
      for i := 0 to |storageClasses|
        invariant classes == PatchedAll(c, names[..i], p)
        invariant faults == old(faults) && forall x :: x in names[..i] ==> x in c
      {
        var sc := storageClasses[i];
        assert names[..i + 1][..i] == names[..i] && names[..i + 1] == names[..i] + [sc.name];
        err := Patch(sc.name, p);
        if err.Some? {
          return err, names[..i + 1];
        }
      }
      assert names[..|names|] == names;
      return None, names;
    }

    /** Take the mark off every class that carries one: a class that has none, or an empty
        one, stays exactly as it is however this ends, and if it succeeds every other class
        says "false". */
    method DisableCurrentDefaultStorageClasses() returns (err: Option<ApiError>, ghost issued: seq<string>)
      requires Lists(order, classes)
      modifies this
      ensures Disabled(order, old(classes), issued, classes, err)
      ensures classes.Keys == old(classes).Keys
      ensures var key := "storageclass.kubernetes.io/is-default-class";
              forall x :: x in old(classes) ==>
                if key !in old(classes)[x] || old(classes)[x][key] == "" then classes[x] == old(classes)[x]
                else
                  || classes[x] == old(classes)[x][key := "false"]
                  || (err.Some? && classes[x] == old(classes)[x])
      ensures if err.Some? then faults > old(faults) else faults == old(faults)
      ensures reliable ==> faults == old(faults)
    {
      hide PatchedAll, Marked, Pick;
      ghost var c := classes;
      ghost var names := Pick(order, classes.Keys);
      PickMembers(order, classes.Keys);
      PickMembers(order, Marked(classes));
      BeforePatches(c, Annotate(DEFAULT_CLASS, "false"));
      PickPick(order, classes.Keys, Marked(classes));
      var listed := ListStorageClasses();
      if listed.None? {
        DisabledOnFields(order, c, [], classes, Some(Unavailable));
        return Some(Unavailable), [];
      }
      var list := listed.value;
      assert NamesOf(list) == names;
      assert forall i :: 0 <= i < |list| ==> list[i].name in names;
      var defaultList := GetDefaultStorageClasses(list, c);
      var patchData := GenPatchToToggleDefaultStorageClass("false");
      if patchData.Err? {
        return Some(BadToggle), [];
      }
      err, issued := PatchStorageClasses(defaultList, patchData.value);
      assert err.Some? ==> issued[|issued| - 1] in NamesOf(defaultList);
      DisabledOnFields(order, c, issued, classes, err);
    }

    method SetDefaultStorageClass(name: string) returns (err: Option<ApiError>)
      modifies this
      ensures name !in old(classes) ==> err == Some(NotFound) && classes == old(classes)
      ensures name in old(classes) ==>
                || (err == None && classes == MadeDefault(old(classes), name))
                || (err == Some(Unavailable) && (classes == old(classes) || classes == MadeDefault(old(classes), name)))
      ensures reliable ==> faults == old(faults)
      ensures name in old(classes) && faults == old(faults) ==>
                var key := "storageclass.kubernetes.io/is-default-class";
                err == None && classes == old(classes)[name := old(classes)[name][key := "true"]]
    {
      var patchData := GenPatchToToggleDefaultStorageClass("true");
      if patchData.Err? {
        return Some(BadToggle);
      }
      err := Patch(name, patchData.value);
    }
  }

  function MadeDefault(c: Classes, name: string): Classes
  {
    Patched(c, name, Annotate(DEFAULT_CLASS, "true"))
  }

  function Cleared(c: Classes, names: seq<string>): Classes
  {
    PatchedAll(c, names, Annotate(DEFAULT_CLASS, "false"))
  }

  /** How taking the marks off may end. */
  ghost predicate Disabled(order: seq<string>, c: Classes, issued: seq<string>, now: Classes, err: Option<ApiError>)
  {
    && issued <= Pick(order, Marked(c))
    && (err.None? ==> issued == Pick(order, Marked(c)) && now == Cleared(c, issued))
    && (err.Some? ==>
       err.value == Unavailable
       && (now == Cleared(c, issued) || (issued != [] && now == Cleared(c, issued[..|issued| - 1]))))
  }

  /** The same, class by class and on the annotation itself. */
  lemma DisabledOnFields(order: seq<string>, c: Classes, issued: seq<string>, now: Classes, err: Option<ApiError>)
    requires Lists(order, c) && Disabled(order, c, issued, now, err)
    ensures now.Keys == c.Keys
    ensures var key := "storageclass.kubernetes.io/is-default-class";
            forall x :: x in c ==>
              if key !in c[x] || c[x][key] == "" then now[x] == c[x]
              else now[x] == c[x][key := "false"] || (err.Some? && now[x] == c[x])
  {
    hide PatchedAll, Pick, NoDup;
    var names, p := Pick(order, Marked(c)), Annotate(DEFAULT_CLASS, "false");
    PickMembers(order, Marked(c));
    var done := if now == Cleared(c, issued) then issued else issued[..|issued| - 1];
    assert now == PatchedAll(c, done, p) && forall x :: x in done ==> x in names;
    forall x | x in c ensures now[x] == if x in done then c[x][DEFAULT_CLASS := "false"] else c[x] {
      PatchedAllAt(c, done, p, x);
    }
  }

  lemma BeforePatches(c: Classes, p: Patch)
    ensures PatchedAll(c, [], p) == c && Marked(c) <= c.Keys
  {}

  // ---------------------------------------------------------------- what the patches do

  /** A series of patches sets the one annotation on the named classes, whatever their order
      and however often each is named, and changes nothing else. */
  lemma {:induction false} PatchedAllAt(c: Classes, names: seq<string>, p: Patch, x: string)
    ensures x in PatchedAll(c, names, p) <==> x in c
    ensures x in c ==> PatchedAll(c, names, p)[x] == (if x in names then c[x][p.key := p.value] else c[x])
  {
    if names != [] {
      var front, last := names[..|names| - 1], names[|names| - 1];
      PatchedAllAt(c, front, p, x);
      assert names == front + [last];
    }
  }

  /** Clearing the first `k` of the listed marks: exactly their classes stop being default,
      the set of marked classes stays the same, so no class is listed anew, and other
      annotations and other classes are not touched. */
  lemma ClearedSoFar(order: seq<string>, c: Classes, k: nat)
    requires Lists(order, c) && k <= |Pick(order, Marked(c))|
    ensures var done := Pick(order, Marked(c))[..k];
            var now := Cleared(c, done);
            && now.Keys == c.Keys
            && Marked(now) == Marked(c)
            && Defaults(now) == Defaults(c) - (set x | x in done)
            && (forall x, key :: x in c && (key != DEFAULT_CLASS || x !in done) ==> SameAnnotation(c, now, x, key))
  {
    hide PatchedAll, Pick, NoDup;
    var names := Pick(order, Marked(c));
    PickMembers(order, Marked(c));
    var done := names[..k];
    var p := Annotate(DEFAULT_CLASS, "false");
    forall x ensures (x in Cleared(c, done) <==> x in c)
        && (x in c ==> Cleared(c, done)[x] == (if x in done then c[x][DEFAULT_CLASS := "false"] else c[x]))
    {
      PatchedAllAt(c, done, p, x);
    }
    assert forall x :: x in done ==> x in names;
  }

  /** At every step, and wherever the disabling breaks off, the set of default classes only
      shrinks, and a class without a mark or with an empty one is exactly as it was. */
  lemma DisablingOnlyShrinks(order: seq<string>, c: Classes, k: nat)
    requires Lists(order, c) && k < |Pick(order, Marked(c))|
    ensures var names, key := Pick(order, Marked(c)), "storageclass.kubernetes.io/is-default-class";
            && Defaults(Cleared(c, names[..k + 1])) == Defaults(Cleared(c, names[..k])) - {names[k]}
            && forall x :: x in c && (key !in c[x] || c[x][key] == "") ==> Cleared(c, names[..k])[x] == c[x]
  {
    var names := Pick(order, Marked(c));
    ClearedSoFar(order, c, k);
    ClearedSoFar(order, c, k + 1);
    PickMembers(order, Marked(c));
    assert names[..k + 1] == names[..k] + [names[k]];
    forall x | x in c && x !in Marked(c) ensures Cleared(c, names[..k])[x] == c[x] {
      PatchedAllAt(c, names[..k], Annotate(DEFAULT_CLASS, "false"), x);
    }
  }

  /** Whatever a disabling left behind, it removed default classes and added none; a
      successful one left none at all. */
  lemma DisablingLeaves(order: seq<string>, c: Classes, issued: seq<string>, now: Classes, err: Option<ApiError>)
    requires Lists(order, c) && Disabled(order, c, issued, now, err)
    ensures Lists(order, now) && now.Keys == c.Keys && Marked(now) == Marked(c) && Defaults(now) <= Defaults(c)
    ensures err.None? ==> Defaults(now) == {}
    ensures err.Some? ==> forall i :: 0 <= i < |issued| - 1 ==> issued[i] !in Defaults(now)
  {
    hide Cleared, Pick, NoDup;
    var names := Pick(order, Marked(c));
    PickMembers(order, Marked(c));
    ClearedSoFar(order, c, |issued|);
    assert names[..|issued|] == issued;
    if issued != [] {
      ClearedSoFar(order, c, |issued| - 1);
      assert names[..|issued| - 1] == issued[..|issued| - 1];
      assert forall i :: 0 <= i < |issued| - 1 ==> issued[i] == issued[..|issued| - 1][i];
    }
    assert err.None? ==> forall x :: x in Defaults(c) ==> x in names;
  }

  /** Disabling again after a failure ends where an undisturbed disabling would have. */
  lemma DisablingResumes(order: seq<string>, c: Classes, issued: seq<string>, mid: Classes,
        err: Option<ApiError>, again: seq<string>, now: Classes)
    requires Lists(order, c) && Disabled(order, c, issued, mid, err) && Disabled(order, mid, again, now, None)
    ensures now == Cleared(c, Pick(order, Marked(c))) && again == Pick(order, Marked(c))
  {
    DisablingLeaves(order, c, issued, mid, err);
    var names := Pick(order, Marked(c));
    if mid == Cleared(c, issued) {
      ClearedTwice(c, issued, names);
    } else {
      ClearedTwice(c, issued[..|issued| - 1], names);
    }
  }

  lemma ClearedTwice(c: Classes, some: seq<string>, all: seq<string>)
    requires some <= all
    ensures Cleared(Cleared(c, some), all) == Cleared(c, all)
  {
    hide PatchedAll;
    var p := Annotate(DEFAULT_CLASS, "false");
    forall x | x in c ensures Cleared(Cleared(c, some), all)[x] == Cleared(c, all)[x] {
      PatchedAllAt(Cleared(c, some), all, p, x);
      PatchedAllAt(c, all, p, x);
      PatchedAllAt(c, some, p, x);
      assert c[x][p.key := "false"][p.key := "false"] == c[x][p.key := "false"];
    }
  }

  // ---------------------------------------------------------------- the switch

  lemma MadeDefaultAdds(c: Classes, name: string)
    requires name in c
    ensures MadeDefault(c, name).Keys == c.Keys
    ensures Defaults(MadeDefault(c, name)) == Defaults(c) + {name}
    ensures Marked(MadeDefault(c, name)) == Marked(c) + {name}
  {}

  lemma DefaultsOnField(c: Classes, x: string)
    ensures var key := "storageclass.kubernetes.io/is-default-class";
            x in Defaults(c) <==> x in c && key in c[x] && c[x][key] == "true"
  {}

  /** From any cluster, a disabling that succeeds followed by a setting that succeeds leaves
      the named class as the only default; every other annotation and every class without a
      mark are as they were. */
  lemma SwitchLeavesOneDefault(order: seq<string>, c: Classes, issued: seq<string>, mid: Classes, name: string)
    requires Lists(order, c) && Disabled(order, c, issued, mid, None)
    ensures name in mid <==> name in c
    ensures name in c ==> Defaults(MadeDefault(mid, name)) == {name}
    ensures name !in c ==> Defaults(mid) == {}
    ensures forall x, key :: x in c && (key != DEFAULT_CLASS || (x != name && x !in Marked(c))) ==>
              SameAnnotation(c, MadeDefault(mid, name), x, key)
    ensures var now, key := MadeDefault(mid, name), "storageclass.kubernetes.io/is-default-class";
            forall x :: name in c ==> (x in now && key in now[x] && now[x][key] == "true" <==> x == name)
  {
    hide Cleared, Pick, NoDup, SameAnnotation, MadeDefault;
    DisablingLeaves(order, c, issued, mid, None);
    forall x, key | x in c && (key != DEFAULT_CLASS || (x != name && x !in Marked(c)))
      ensures SameAnnotation(c, MadeDefault(mid, name), x, key)
    {
      SwitchKeeps(order, c, name, x, key);
    }
    if name in c {
      MadeDefaultAdds(mid, name);
      forall x {
        DefaultsOnField(MadeDefault(mid, name), x);
      }
    }
  }

  /** The class says the same under this key before and after, or nothing both times. */
  predicate SameAnnotation(c: Classes, now: Classes, x: string, key: string)
    requires x in c
  {
    x in now && (key in now[x] <==> key in c[x]) && (key in c[x] ==> now[x][key] == c[x][key])
  }

  lemma SwitchKeeps(order: seq<string>, c: Classes, name: string, x: string, key: string)
    requires Lists(order, c) && x in c && (key != DEFAULT_CLASS || (x != name && x !in Marked(c)))
    ensures SameAnnotation(c, MadeDefault(Cleared(c, Pick(order, Marked(c))), name), x, key)
  {
    hide PatchedAll, Pick, NoDup, Marked;
    PickMembers(order, Marked(c));
    PatchedAllAt(c, Pick(order, Marked(c)), Annotate(DEFAULT_CLASS, "false"), x);
  }

  function Set(names: seq<string>): set<string>
  {
    set x | x in names
  }

  /** The patches known to have taken effect: all that were issued but the last. */
  function Certain(issued: seq<string>): seq<string>
  {
    if issued == [] then [] else issued[..|issued| - 1]
  }

  /** A disabling that broke off left the default classes whose patch it had not issued, and
      perhaps the class of the last patch it had. */
  lemma BrokenDisableLeaves(order: seq<string>, c: Classes, issued: seq<string>, mid: Classes)
    requires Lists(order, c) && Disabled(order, c, issued, mid, Some(Unavailable))
    ensures mid.Keys == c.Keys
    ensures Defaults(mid) == Defaults(c) - Set(issued) || Defaults(mid) == Defaults(c) - Set(Certain(issued))
  {
    hide Cleared, Pick, NoDup, Defaults, Marked;
    var names := Pick(order, Marked(c));
    var k := if mid == Cleared(c, issued) then |issued| else |issued| - 1;
    ClearedSoFar(order, c, k);
    assert issued == names[..|issued|];
    assert k < |issued| ==> names[..k] == Certain(issued);
    assert mid == Cleared(c, names[..k]);
  }

  lemma MayStopBefore(order: seq<string>, c: Classes, issued: seq<string>)
    requires Lists(order, c) && issued <= Pick(order, Marked(c))
    ensures var mid := Cleared(c, Certain(issued));
            && Disabled(order, c, issued, mid, Some(Unavailable))
            && mid.Keys == c.Keys && Defaults(mid) == Defaults(c) - Set(Certain(issued))
  {
    hide Cleared, Pick, NoDup, Defaults, Marked;
    var names := Pick(order, Marked(c));
    ClearedSoFar(order, c, |Certain(issued)|);
    assert names[..|Certain(issued)|] == Certain(issued);
  }

  /** After a disabling that broke off, a set is sure to leave one default if and only if
      every other class that was one had its patch issued, and not as the last. */
  lemma SetAfterBrokenDisable(order: seq<string>, c: Classes, issued: seq<string>, name: string)
    requires Lists(order, c) && issued <= Pick(order, Marked(c)) && name in c
    ensures (forall mid :: Disabled(order, c, issued, mid, Some(Unavailable)) ==>
            Defaults(MadeDefault(mid, name)) == {name}) <==>
            (forall x :: x in Defaults(c) && x != name ==> x in Certain(issued))
  {
    hide Disabled, Pick, Defaults, Lists, MadeDefault, Cleared;
    if forall x :: x in Defaults(c) && x != name ==> x in Certain(issued) {
      forall mid | Disabled(order, c, issued, mid, Some(Unavailable))
          ensures Defaults(MadeDefault(mid, name)) == {name}
      {
        BrokenDisableLeaves(order, c, issued, mid);
        MadeDefaultAdds(mid, name);
      }
    } else {
      var x :| x in Defaults(c) && x != name && x !in Certain(issued);
      var mid := Cleared(c, Certain(issued));
      MayStopBefore(order, c, issued);
      MadeDefaultAdds(mid, name);
      assert x in Defaults(MadeDefault(mid, name));
    }
  }

  /** A toggle is accepted exactly if a patched class then says so: "true" makes it default,
      "false" takes that away and keeps its mark, and no other toggle becomes a patch. Other
      classes stay as they are. */
  lemma ToggleDecides(toggle: string, c: Classes, name: string)
    requires name in c
    ensures var r := GenPatchToToggleDefaultStorageClass(toggle);
            && (r.Ok? <==> toggle in {"true", "false"})
            && (toggle == "true" <==> r.Ok? && Defaults(Patched(c, name, r.value)) == Defaults(c) + {name})
            && (toggle == "false" <==> r.Ok? && Defaults(Patched(c, name, r.value)) == Defaults(c) - {name})
            && (r.Ok? ==> Marked(Patched(c, name, r.value)) == Marked(c) + {name})
  {
    var r := GenPatchToToggleDefaultStorageClass(toggle);
    if r.Ok? {
      assert toggle == "true" ==> name in Defaults(Patched(c, name, r.value));
      assert toggle == "false" ==> name !in Defaults(Patched(c, name, r.value));
    }
  }
}
