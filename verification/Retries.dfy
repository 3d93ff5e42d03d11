/** Find-or-create among other creators: without faults only a lost race stops it, so calling
    again succeeds. */
module Retries {
  import opened Forest
  import opened GroupWalk
  import opened LoneWalk
  import opened Pagination
  import opened Sequences
  import opened WalkSafety
  import opened Wrappers

  /** A call that is delivered breaks a walk only if it is a create of a name that exists. */
  lemma DeliveredBreaksOnlyByConflict(f0: Forest, f: Forest, w: Walker, s: Service)
    requires WalkInv(f0, f, w) && !Terminal(w) && s.fault.Deliver?
    ensures var w' := Handle(w, Serve(f, Pending(w), s).1);
            w'.stage.Broken? ==> w'.stage.error == Conflict && w.stage.Creating?
  {
    if w.stage.Creating? {
      hide Locate, Listing, FirstNamed, StoredPath;
      CreateAt(f, w.names[..w.k], w.names[w.k], s.at);
    } else {
      ReadBreaksOnlyByFault(f, w, s);
    }
  }

  /** A create whose reply is lost is stored all the same, although the walk breaks; one whose
      request is lost changes nothing. */
  lemma LostReplyIsStored(f: Forest, w: Walker, s: Service)
    requires Sound(w) && w.stage.Creating? && WellFormed(f) && Tracks(f, w) && !s.fault.Deliver?
    ensures var (f', reply) := Serve(f, Pending(w), s);
            && Handle(w, reply).stage == Broken(Transport)
            && (s.fault.DropRequest? ==> f' == f)
            && (s.fault.LoseReply? ==> Locate(f', w.names[..w.k + 1]).Some?)
            && (s.fault.LoseReply? && Locate(f, w.names[..w.k + 1]).None? ==> |f'| == |f| + 1)
  {
    hide Locate, Listing, FirstNamed, StoredPath, DistinctIds, UniqueSiblings, Rooted;
    TakeOneMore(w.names, w.k);
    CreateAt(f, w.names[..w.k], w.names[w.k], s.at);
    if Locate(f, w.names[..w.k + 1]).None? {
      CreateEffect(f, w.names[..w.k], w.names[w.k], s.at, w.names[..w.k + 1]);
    }
  }

  lemma StepBreaksOnlyByConflict(f0: Forest, world: World, w: Walker)
    requires WalkInv(f0, world.forest, w) && Faultless(world)
    ensures var (world', w') := Step(world, w);
            && Faultless(world')
            && (w'.stage.Broken? && !w.stage.Broken? ==> w'.stage.error == Conflict)
  {
    hide Serve, Handle, Locate;
    if !Terminal(w) {
      var turn := if world.turns == [] then QUIET_TURN else world.turns[0];
      assert world.turns != [] ==> turn in world.turns;
      var f1 := ApplyAll(world.forest, turn.others);
      ApplyAllKeeps(world.forest, turn.others);
      WalkSurvivesGrowth(f0, world.forest, f1, w);
      DeliveredBreaksOnlyByConflict(f0, f1, w, turn.service);
    }
  }

  /** Whatever others create, a walk all of whose calls are delivered breaks only by a
      refused duplicate, and a find walk not at all. */
  lemma {:induction false} FaultlessWalkBreaksOnlyByConflict(world: World, create: bool, names: seq<string>, n: nat)
    requires WellFormed(world.forest) && Faultless(world)
    ensures var (world', w) := Run(world, Begin(create, names), n);
            && Faultless(world')
            && (w.stage.Broken? ==> w.stage.error == Conflict && create)
  {
    hide Step, WellFormed, Subseq, Locate, Faultless;
    BeginInv(world.forest, create, names);
    RunInv(world.forest, world, Begin(create, names), n);
    if n > 0 {
      FaultlessWalkBreaksOnlyByConflict(world, create, names, n - 1);
      RunInv(world.forest, world, Begin(create, names), n - 1);
      var (world1, w1) := Run(world, Begin(create, names), n - 1);
      StepBreaksOnlyByConflict(world.forest, world1, w1);
      BrokenStays(world1, w1);
    }
  }

  lemma BrokenStays(world: World, w: Walker)
    requires Sound(w)
    ensures w.stage.Broken? ==> Step(world, w) == (world, w)
  {}

  /** Consecutive attempts that each came to an end, every call of which was delivered; each
      starts in whatever the last one left, possibly grown further. */
  ghost predicate Attempts(names: seq<string>, starts: seq<World>, calls: seq<nat>)
  {
    && |starts| == |calls|
    && (forall i :: 0 <= i < |starts| ==>
          && WellFormed(starts[i].forest) && Faultless(starts[i])
          && Terminal(Run(starts[i], Begin(true, names), calls[i]).1))
    && (forall i :: 0 < i < |starts| ==>
          Subseq(Run(starts[i - 1], Begin(true, names), calls[i - 1]).0.forest, starts[i].forest))
  }

  /** However others race it, one of |names| + 1 attempts at find-or-create succeeds. */
  lemma RetriesSucceed(names: seq<string>, starts: seq<World>, calls: seq<nat>)
    requires Attempts(names, starts, calls) && |starts| > |names|
    ensures exists i :: 0 <= i < |starts| && Run(starts[i], Begin(true, names), calls[i]).1.stage.Done?
  {
    hide Run, WellFormed, Subseq, Faultless;
    forall i | 0 <= i < |starts|
      ensures var w := Run(starts[i], Begin(true, names), calls[i]).1; w.stage.Done? || w.stage == Broken(Conflict)
    {
      FaultlessWalkBreaksOnlyByConflict(starts[i], true, names, calls[i]);
      BeginInv(starts[i].forest, true, names);
      RunInv(starts[i].forest, starts[i], Begin(true, names), calls[i]);
    }
    if forall i :: 0 <= i < |starts| ==> !Run(starts[i], Begin(true, names), calls[i]).1.stage.Done? {
      RefusedAttemptsBounded(names, starts, calls);
    }
  }
}
