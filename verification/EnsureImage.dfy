/** EnsureImage: double-checked locking among any number of processes that share a build
    directory and a Docker daemon. */
module EnsureImage {

  /** The reference name:tag; its lock file is the one of the tag's agent. */
  datatype Tag = Tag(agent: string, hash: string)

  datatype Result = Nil | Error | Aborted

  /** Where a process is in its call. */
  datatype Phase =
    | FirstCheck          // about to ask whether the image exists
    | WantLock            // waiting in flock
    | SecondCheck         // lock held, about to ask again
    | Confirming          // lock held, image absent, asking the user
    | Building            // inside BuildImage
    | Unlocking(r: Result)  // result decided, deferred unlock still to run
    | Done(r: Result)

  datatype Proc = Proc(tag: Tag, phase: Phase)

  datatype World = World(
    images: set<Tag>,
    locks: map<string, nat>,   // agent -> process that holds its lock
    procs: map<nat, Proc>,
    built: seq<Tag>,           // successful builds, in order
    removed: seq<Tag>)         // images removed, in order

  datatype Event =
    | Start(p: nat, tag: Tag)
    | Check(p: nat, ok: bool)      // ImageExists; it may itself fail
    | Lock(p: nat, ok: bool)       // flock is granted, or fails
    | Confirm(p: nat, yes: bool)
    | Build(p: nat, ok: bool)
    | Unlock(p: nat)
    | Remove(tag: Tag)             // someone deletes an image

  function Goto(w: World, p: nat, phase: Phase): World
    requires p in w.procs
  {
    w.(procs := w.procs[p := w.procs[p].(phase := phase)])
  }

  function StepCheck(w: World, p: nat, ok: bool): World
    requires p in w.procs
  {
    var exists_ := w.procs[p].tag in w.images;
    match w.procs[p].phase
    case FirstCheck =>
      Goto(w, p, if !ok then Done(Error) else if exists_ then Done(Nil) else WantLock)
    case SecondCheck =>
      Goto(w, p, if !ok then Unlocking(Error) else if exists_ then Unlocking(Nil) else Confirming)
    case _ => w
  }

  function StepLock(w: World, p: nat, ok: bool): World
    requires p in w.procs
  {
    var agent := w.procs[p].tag.agent;
    if !w.procs[p].phase.WantLock? then w
    else if !ok then Goto(w, p, Done(Error))
    else if agent in w.locks then w
    else Goto(w, p, SecondCheck).(locks := w.locks[agent := p])
  }

  function StepBuild(w: World, p: nat, ok: bool): World
    requires p in w.procs
  {
    var tag := w.procs[p].tag;
    if !w.procs[p].phase.Building? then w
    else if !ok then Goto(w, p, Unlocking(Error))
    else Goto(w, p, Unlocking(Nil)).(images := w.images + {tag}, built := w.built + [tag])
  }

  function StepUnlock(w: World, p: nat): World
    requires p in w.procs
  {
    if !w.procs[p].phase.Unlocking? then w
    else Goto(w, p, Done(w.procs[p].phase.r)).(locks := w.locks - {w.procs[p].tag.agent})
  }

  function Step(w: World, e: Event): World {
    match e
    case Start(p, tag) => if p in w.procs then w else w.(procs := w.procs[p := Proc(tag, FirstCheck)])
    case Check(p, ok) => if p in w.procs then StepCheck(w, p, ok) else w
    case Lock(p, ok) => if p in w.procs then StepLock(w, p, ok) else w
    case Confirm(p, yes) =>
      if p in w.procs && w.procs[p].phase.Confirming?
      then Goto(w, p, if yes then Building else Unlocking(Aborted)) else w
    case Build(p, ok) => if p in w.procs then StepBuild(w, p, ok) else w
    case Unlock(p) => if p in w.procs then StepUnlock(w, p) else w
    case Remove(tag) =>
      if tag in w.images then w.(images := w.images - {tag}, removed := w.removed + [tag]) else w
  }

  function Run(w: World, events: seq<Event>): World {
    if events == [] then w else Step(Run(w, events[..|events| - 1]), events[|events| - 1])
  }

  predicate Initial(w: World) {
    w.locks == map[] && w.procs == map[] && w.built == [] && w.removed == []
  }

  // ---- the invariant ----

  predicate HoldsLock(phase: Phase) {
    phase.SecondCheck? || phase.Confirming? || phase.Building? || phase.Unlocking?
  }

  ghost predicate LockOk(w: World) {
    forall p :: p in w.procs && HoldsLock(w.procs[p].phase) ==>
      w.procs[p].tag.agent in w.locks && w.locks[w.procs[p].tag.agent] == p
  }

  /** Between the second check and the end of the build, the image stays absent. */
  ghost predicate AbsentOk(w: World) {
    forall p :: p in w.procs && (w.procs[p].phase.Confirming? || w.procs[p].phase.Building?) ==>
      w.procs[p].tag !in w.images
  }

  function Times(s: seq<Tag>, t: Tag): nat {
    if s == [] then 0 else Times(s[..|s| - 1], t) + if s[|s| - 1] == t then 1 else 0
  }

  function Here(images: set<Tag>, t: Tag): nat {
    if t in images then 1 else 0
  }

  /** Images come from builds and go by removals only: the books balance for every tag. */
  ghost predicate Balanced(w0: World, w: World) {
    forall t :: Here(w0.images, t) + Times(w.built, t) == Here(w.images, t) + Times(w.removed, t)
  }

  ghost predicate Inv(w0: World, w: World) {
    LockOk(w) && AbsentOk(w) && Balanced(w0, w)
  }

  lemma TimesAppend(s: seq<Tag>, x: Tag, t: Tag)
    ensures Times(s + [x], t) == Times(s, t) + if x == t then 1 else 0
  {
    assert (s + [x])[..|s|] == s;
  }

  lemma StepLockOk(w: World, e: Event)
    requires LockOk(w)
    ensures LockOk(Step(w, e))
  {
  }

  lemma StepAbsentOk(w: World, e: Event)
    requires LockOk(w) && AbsentOk(w)
    ensures AbsentOk(Step(w, e))
  {
    var w' := Step(w, e);
    forall p | p in w'.procs && (w'.procs[p].phase.Confirming? || w'.procs[p].phase.Building?)
      ensures w'.procs[p].tag !in w'.images
    {
      if e.Build? && e.p in w.procs && w.procs[e.p].phase.Building? && p != e.p {
        assert HoldsLock(w.procs[p].phase) && HoldsLock(w.procs[e.p].phase);
      }
    }
  }

  lemma StepBalancedAt(w: World, e: Event, t: Tag)
    requires AbsentOk(w)
    ensures var w' := Step(w, e);
            Here(w'.images, t) + Times(w'.removed, t) + Times(w.built, t) ==
            Here(w.images, t) + Times(w.removed, t) + Times(w'.built, t)
  {
    hide Times;
    match e {
      case Build(p, ok) =>
        if p in w.procs && w.procs[p].phase.Building? {
          TimesAppend(w.built, w.procs[p].tag, t);
        }
      case Remove(tag) => TimesAppend(w.removed, tag, t);
      case _ =>
    }
  }

  lemma StepBalanced(w0: World, w: World, e: Event)
    requires AbsentOk(w) && Balanced(w0, w)
    ensures Balanced(w0, Step(w, e))
  {
    hide Step, Times, Here, AbsentOk;
    forall t
      ensures Here(w0.images, t) + Times(Step(w, e).built, t) ==
              Here(Step(w, e).images, t) + Times(Step(w, e).removed, t)
    {
      StepBalancedAt(w, e, t);
      assert Here(w0.images, t) + Times(w.built, t) == Here(w.images, t) + Times(w.removed, t);
    }
  }

  lemma {:induction false} RunInv(w: World, events: seq<Event>)
    requires Initial(w)
    ensures Inv(w, Run(w, events))
    decreases |events|
  {
    hide Step, LockOk, AbsentOk, Balanced;
    if events == [] {
      InitialInv(w);
    } else {
      var w', e := Run(w, events[..|events| - 1]), events[|events| - 1];
      RunInv(w, events[..|events| - 1]);
      StepLockOk(w', e);
      StepAbsentOk(w', e);
      StepBalanced(w, w', e);
    }
  }

  lemma InitialInv(w: World)
    requires Initial(w)
    ensures Inv(w, w)
  {
  }

  // ---- what holds in every run ----

  /** No two processes hold one agent's lock, so no two build for it at once. */
  lemma OneBuilderPerAgent(w: World, events: seq<Event>, p: nat, q: nat)
    requires Initial(w)
    requires var now := Run(w, events);
             && p in now.procs && q in now.procs
             && HoldsLock(now.procs[p].phase) && HoldsLock(now.procs[q].phase)
             && now.procs[p].tag.agent == now.procs[q].tag.agent
    ensures p == q
  {
    hide Run, Step, HoldsLock, AbsentOk, Balanced;
    RunInv(w, events);
  }

  /** A tag is built at most once more often than it is removed, and never when it was there and
      nobody removed it. */
  lemma BuiltOncePerRemoval(w: World, events: seq<Event>, t: Tag)
    requires Initial(w)
    ensures var now := Run(w, events);
            && Times(now.built, t) + Here(w.images, t) == Times(now.removed, t) + Here(now.images, t)
            && (Times(now.removed, t) == 0 ==> Times(now.built, t) <= 1)
            && (Times(now.removed, t) == 0 && t in w.images ==> Times(now.built, t) == 0)
  {
    hide Run, Step, LockOk, AbsentOk;
    RunInv(w, events);
  }

  predicate ReturnsNil(w: World, p: nat) {
    p in w.procs && (w.procs[p].phase == Done(Nil) || w.procs[p].phase == Unlocking(Nil))
  }

  /** A call decides on nil only in a state that has its image. */
  lemma NilMeansPresent(w: World, events: seq<Event>, e: Event, p: nat)
    requires !ReturnsNil(Run(w, events), p) && ReturnsNil(Step(Run(w, events), e), p)
    ensures Step(Run(w, events), e).procs[p].tag in Step(Run(w, events), e).images
  {
    hide Run;
  }

  lemma NilStays(w: World, e: Event, p: nat)
    ensures ReturnsNil(w, p) ==> ReturnsNil(Step(w, e), p) && Step(w, e).procs[p].tag == w.procs[p].tag
    ensures w.removed <= Step(w, e).removed
    ensures Step(w, e).removed == w.removed ==> w.images <= Step(w, e).images
  {
  }

  lemma {:induction false} RunSplit(w: World, a: seq<Event>, b: seq<Event>)
    ensures Run(w, a + b) == Run(Run(w, a), b)
    decreases |b|
  {
    hide Step;
    if b == [] {
      assert a + b == a;
    } else {
      assert (a + b)[..|a + b| - 1] == a + b[..|b| - 1];
      RunSplit(w, a, b[..|b| - 1]);
    }
  }

  lemma StepRemoves(w: World, e: Event, t: Tag)
    ensures Times(Step(w, e).removed, t) == Times(w.removed, t) + if e == Remove(t) && t in w.images then 1 else 0
  {
    if e.Remove? && e.tag in w.images {
      TimesAppend(w.removed, e.tag, t);
    }
  }

  lemma {:induction false} NoRemoval(w: World, events: seq<Event>, t: Tag)
    requires Remove(t) !in events
    ensures Times(Run(w, events).removed, t) == Times(w.removed, t)
    decreases |events|
  {
    hide Step, Times;
    if events != [] {
      var init, e := events[..|events| - 1], events[|events| - 1];
      assert e in events;
      NoRemoval(w, init, t);
      StepRemoves(Run(w, init), e, t);
    }
  }

  lemma {:induction false} NilStaysOverRun(w: World, events: seq<Event>, p: nat)
    requires ReturnsNil(w, p)
    ensures ReturnsNil(Run(w, events), p) && Run(w, events).procs[p].tag == w.procs[p].tag
    decreases |events|
  {
    hide Step, ReturnsNil;
    assert p in w.procs by { NilKnown(w, p); }
    if events != [] {
      NilStaysOverRun(w, events[..|events| - 1], p);
      NilKnown(Run(w, events[..|events| - 1]), p);
      NilStays(Run(w, events[..|events| - 1]), events[|events| - 1], p);
      NilKnown(Run(w, events), p);
    }
  }

  lemma NilKnown(w: World, p: nat)
    requires ReturnsNil(w, p)
    ensures p in w.procs
  {
  }

  /** Counted from the moment at which a call decides on nil: its image is present exactly as long as
      that very tag was built again as often as it was removed since. In particular it is present
      unless the tag was removed after the decision; removals of other tags do not matter. */
  lemma NilPresentIff(w: World, before: seq<Event>, e: Event, after: seq<Event>, p: nat)
    requires Initial(w)
    requires !ReturnsNil(Run(w, before), p) && ReturnsNil(Run(w, before + [e]), p)
    ensures p in Run(w, before + [e]).procs && p in Run(w, before + [e] + after).procs
    ensures var then_, now := Run(w, before + [e]), Run(w, before + [e] + after);
            var t := then_.procs[p].tag;
            && ReturnsNil(now, p) && now.procs[p].tag == t
            && (t in now.images <==>
                  Times(now.removed, t) - Times(then_.removed, t) == Times(now.built, t) - Times(then_.built, t))
            && (Remove(t) !in after ==> t in now.images)
  {
    hide Step, Run, ReturnsNil, Times, LockOk, AbsentOk;
    var then_, now := Run(w, before + [e]), Run(w, before + [e] + after);
    RunSnoc(w, before, e);
    NilKnown(then_, p);
    NilMeansPresent(w, before, e, p);
    RunSplit(w, before + [e], after);
    NilStaysOverRun(then_, after, p);
    NilKnown(now, p);
    var t := then_.procs[p].tag;
    RunInv(w, before + [e]);
    RunInv(w, before + [e] + after);
    BalancedFor(w, then_, t);
    BalancedFor(w, now, t);
    if Remove(t) !in after {
      NoRemoval(then_, after, t);
      NeverUnbuilt(then_, after, t);
    }
  }

  lemma RunSnoc(w: World, before: seq<Event>, e: Event)
    ensures Run(w, before + [e]) == Step(Run(w, before), e)
  {
    hide Step;
    assert (before + [e])[..|before|] == before;
  }

  lemma BalancedFor(w0: World, w: World, t: Tag)
    requires Balanced(w0, w)
    ensures Here(w0.images, t) + Times(w.built, t) == Here(w.images, t) + Times(w.removed, t)
  {
  }

  lemma StepBuilds(w: World, e: Event, t: Tag)
    ensures Times(Step(w, e).built, t) >= Times(w.built, t)
  {
    if e.Build? && e.p in w.procs {
      TimesAppend(w.built, w.procs[e.p].tag, t);
    }
  }

  lemma {:induction false} NeverUnbuilt(w: World, events: seq<Event>, t: Tag)
    ensures Times(Run(w, events).built, t) >= Times(w.built, t)
    decreases |events|
  {
    hide Step, Times;
    if events != [] {
      NeverUnbuilt(w, events[..|events| - 1], t);
      StepBuilds(Run(w, events[..|events| - 1]), events[|events| - 1], t);
    }
  }

  /** Every nil return has such a moment. */
  lemma {:induction false} NilWasDecided(w: World, events: seq<Event>, p: nat) returns (n: nat)
    requires Initial(w) && ReturnsNil(Run(w, events), p)
    ensures n < |events| && !ReturnsNil(Run(w, events[..n]), p) && ReturnsNil(Run(w, events[..n + 1]), p)
    decreases |events|
  {
    hide Step, ReturnsNil;
    if events == [] {
      NobodyReturned(w, p);
      assert false;
    }
    n := |events| - 1;
    assert events[..n + 1] == events;
    if ReturnsNil(Run(w, events[..n]), p) {
      var init := events[..n];
      n := NilWasDecided(w, init, p);
      assert init[..n] == events[..n] && init[..n + 1] == events[..n + 1];
    }
  }

  /** While its own tag is not removed, the image of every nil return is present from then on. */
  lemma NilLeavesImage(w: World, events: seq<Event>, p: nat)
    requires Initial(w) && ReturnsNil(Run(w, events), p)
    requires Times(Run(w, events).removed, Run(w, events).procs[p].tag) == 0
    ensures Run(w, events).procs[p].tag in Run(w, events).images
  {
    hide Step, Run, ReturnsNil, Times;
    var n := NilWasDecided(w, events, p);
    var before, e, after := events[..n], events[n], events[n + 1..];
    assert before + [e] == events[..n + 1] && before + [e] + after == events;
    NilPresentIff(w, before, e, after, p);
    var t := Run(w, events).procs[p].tag;
    RunSplit(w, before + [e], after);
    NeverUnbuilt(Run(w, before + [e]), after, t);
    NeverUnremoved(Run(w, before + [e]), after, t);
    RunInv(w, before + [e]);
    RunInv(w, events);
    BalancedFor(w, Run(w, before + [e]), t);
    BalancedFor(w, Run(w, events), t);
    RunSnoc(w, before, e);
    NilMeansPresent(w, before, e, p);
  }

  lemma {:induction false} NeverUnremoved(w: World, events: seq<Event>, t: Tag)
    ensures Times(Run(w, events).removed, t) >= Times(w.removed, t)
    decreases |events|
  {
    hide Step, Times;
    if events != [] {
      NeverUnremoved(w, events[..|events| - 1], t);
      StepRemoves(Run(w, events[..|events| - 1]), events[|events| - 1], t);
    }
  }

  lemma NobodyReturned(w: World, p: nat)
    requires Initial(w)
    ensures !ReturnsNil(w, p)
  {
  }

  /** The lock is never leaked: whoever is recorded as its holder is still inside the section. */
  ghost predicate LockHeldByLive(w: World) {
    forall a :: a in w.locks ==>
      var p := w.locks[a];
      p in w.procs && HoldsLock(w.procs[p].phase) && w.procs[p].tag.agent == a
  }

  lemma StepLockHeld(w: World, e: Event)
    requires LockOk(w) && LockHeldByLive(w)
    ensures LockHeldByLive(Step(w, e))
  {
  }

  /** Every exit releases: when all calls are over, no lock is held. */
  lemma {:induction false} EveryExitUnlocks(w: World, events: seq<Event>)
    requires Initial(w)
    ensures LockHeldByLive(Run(w, events))
    ensures (forall p :: p in Run(w, events).procs ==> Run(w, events).procs[p].phase.Done?) ==>
            Run(w, events).locks == map[]
    decreases |events|
  {
    hide Step, LockOk, AbsentOk, Balanced;
    if events != [] {
      RunInv(w, events[..|events| - 1]);
      EveryExitUnlocks(w, events[..|events| - 1]);
      StepLockHeld(Run(w, events[..|events| - 1]), events[|events| - 1]);
    }
    var now := Run(w, events);
    if forall p :: p in now.procs ==> now.procs[p].phase.Done? {
      assert forall a :: a !in now.locks;
    }
  }

  // ---- what a call comes to ----

  /** The call of p has its result. */
  predicate Ended(w: World, p: nat, r: Result) {
    p in w.procs && (w.procs[p].phase == Unlocking(r) || w.procs[p].phase == Done(r))
  }

  /** The moment that decides a call: it finds the image or its own build succeeds; the user refuses;
      or one of its own checks, its lock or its build fails. */
  predicate Decides(w: World, e: Event, p: nat, r: Result) {
    && p in w.procs
    && var phase := w.procs[p].phase;
       match r
       case Nil =>
         || (e == Check(p, true) && (phase.FirstCheck? || phase.SecondCheck?) && w.procs[p].tag in w.images)
         || (e == Build(p, true) && phase.Building?)
       case Aborted => e == Confirm(p, false) && phase.Confirming?
       case Error =>
         || (e == Check(p, false) && (phase.FirstCheck? || phase.SecondCheck?))
         || (e == Lock(p, false) && phase.WantLock?)
         || (e == Build(p, false) && phase.Building?)
  }

  lemma StepEnds(w: World, e: Event, p: nat, r: Result)
    ensures Ended(Step(w, e), p, r) <==> Ended(w, p, r) || Decides(w, e, p, r)
  {
  }

  /** Over every run a call has a result exactly if such a moment came: it ends with nil if and only if
      it found or built its image, with abort if and only if the user was asked and refused, and with an
      error if and only if one of its own checks, its lock or its build failed. */
  lemma {:induction false} OutcomeIff(w: World, events: seq<Event>, p: nat, r: Result)
    requires Initial(w)
    ensures Ended(Run(w, events), p, r) <==> exists n :: DecidedAt(w, events, p, r, n)
    decreases |events|
  {
    hide Step, Ended, DecidedAt, Run;
    if events == [] {
      NobodyEnded(w, p, r);
      RunOfNothing(w);
      NothingDecided(w, p, r);
    } else {
      var m := |events| - 1;
      var init, e := events[..m], events[m];
      assert init + [e] == events;
      OutcomeIff(w, init, p, r);
      RunSnoc(w, init, e);
      StepEnds(Run(w, init), e, p, r);
      DecidedNext(w, init, e, p, r);
    }
  }

  /** The n-th event of the run decides the call. */
  predicate DecidedAt(w: World, events: seq<Event>, p: nat, r: Result, n: nat) {
    n < |events| && Decides(Run(w, events[..n]), events[n], p, r)
  }

  lemma RunOfNothing(w: World)
    ensures Run(w, []) == w
  {
  }

  lemma NothingDecided(w: World, p: nat, r: Result)
    ensures forall n :: !DecidedAt(w, [], p, r, n)
  {
  }

  lemma DecidedNext(w: World, init: seq<Event>, e: Event, p: nat, r: Result)
    ensures (exists n :: DecidedAt(w, init + [e], p, r, n)) <==>
            (exists n :: DecidedAt(w, init, p, r, n)) || Decides(Run(w, init), e, p, r)
  {
    hide Run, Decides;
    var all := init + [e];
    assert all[..|init|] == init && all[|init|] == e;
    assert forall n :: 0 <= n < |init| ==> all[..n] == init[..n] && all[n] == init[n];
    if n :| DecidedAt(w, init, p, r, n) {
      assert DecidedAt(w, all, p, r, n);
    }
    if Decides(Run(w, init), e, p, r) {
      assert DecidedAt(w, all, p, r, |init|);
    }
    if n :| DecidedAt(w, all, p, r, n) && n != |init| {
      assert DecidedAt(w, init, p, r, n);
    }
  }

  lemma NobodyEnded(w: World, p: nat, r: Result)
    requires Initial(w)
    ensures !Ended(w, p, r)
  {
  }

  predicate Agrees(w: World, e: Event, p: nat) {
    p in w.procs && w.procs[p].phase.Confirming? && e == Confirm(p, true)
  }

  lemma StepBuildsOnConsent(w: World, e: Event, p: nat)
    ensures p in Step(w, e).procs && Step(w, e).procs[p].phase.Building? ==>
              (p in w.procs && w.procs[p].phase.Building?) || Agrees(w, e, p)
    ensures Step(w, e).built != w.built ==>
              e.Build? && e.ok && e.p in w.procs && w.procs[e.p].phase.Building?
              && Step(w, e).built == w.built + [w.procs[e.p].tag]
    ensures Agrees(w, e, p) ==> p in Step(w, e).procs && Step(w, e).procs[p].phase.Building?
  {
  }

  /** Over every run, a process is in BuildImage only if the user was asked by that very call and agreed. */
  lemma {:induction false} BuildsOnConsent(w: World, events: seq<Event>, p: nat)
    requires Initial(w) && p in Run(w, events).procs && Run(w, events).procs[p].phase.Building?
    ensures exists n :: 0 <= n < |events| && Agrees(Run(w, events[..n]), events[n], p)
    decreases |events|
  {
    hide Step, Agrees;
    if events != [] {
      var m := |events| - 1;
      var init := events[..m];
      StepBuildsOnConsent(Run(w, init), events[m], p);
      if p in Run(w, init).procs && Run(w, init).procs[p].phase.Building? {
        BuildsOnConsent(w, init, p);
        var n :| 0 <= n < m && Agrees(Run(w, init[..n]), init[n], p);
        assert events[..n] == init[..n] && events[n] == init[n];
      }
    }
  }

  function Play(w: World, events: seq<Event>): World
    decreases |events|
  {
    if events == [] then w else Play(Step(w, events[0]), events[1..])
  }

  /** A call run alone, with nothing failing: it ends with nil and its image present when the image was
      there or the user agrees, having built exactly when the image was not there; otherwise it ends
      aborted and has built nothing. Its lock is free again. */
  lemma CallAlone(w: World, p: nat, tag: Tag, yes: bool)
    requires p !in w.procs && tag.agent !in w.locks
    ensures var now := Play(w, [Start(p, tag), Check(p, true), Lock(p, true), Check(p, true)]
                               + [Confirm(p, yes), Build(p, true), Unlock(p)]);
            && p in now.procs
            && now.procs[p].phase == Done(if tag in w.images || yes then Nil else Aborted)
            && now.images == (if yes then w.images + {tag} else w.images)
            && now.built == w.built + (if tag !in w.images && yes then [tag] else [])
            && now.locks == w.locks
  {
    hide Step, Play;
    PlayFour(w, Start(p, tag), Check(p, true), Lock(p, true), Check(p, true));
    var mid := Play(w, [Start(p, tag), Check(p, true), Lock(p, true), Check(p, true)]);
    PlayThree(mid, Confirm(p, yes), Build(p, true), Unlock(p));
    PlaySplit(w, [Start(p, tag), Check(p, true), Lock(p, true), Check(p, true)],
              [Confirm(p, yes), Build(p, true), Unlock(p)]);
    AloneToSecondCheck(w, p, tag);
    AloneFromSecondCheck(mid, p, yes);
    if tag in w.images {
      assert w.images + {tag} == w.images;
    }
    assert w.built + [] == w.built;
  }

  lemma AloneToSecondCheck(w: World, p: nat, tag: Tag)
    requires p !in w.procs && tag.agent !in w.locks
    ensures var now := Step(Step(Step(Step(w, Start(p, tag)), Check(p, true)), Lock(p, true)), Check(p, true));
            && p in now.procs && now.procs[p].tag == tag && now.images == w.images && now.built == w.built
            && (tag in w.images ==> now.procs[p].phase == Done(Nil) && now.locks == w.locks)
            && (tag !in w.images ==> now.procs[p].phase == Confirming && now.locks == w.locks[tag.agent := p])
  {
  }

  lemma AloneFromSecondCheck(w: World, p: nat, yes: bool)
    requires p in w.procs && (w.procs[p].phase == Done(Nil) || w.procs[p].phase == Confirming)
    ensures var now := Step(Step(Step(w, Confirm(p, yes)), Build(p, true)), Unlock(p));
            && p in now.procs
            && (w.procs[p].phase == Done(Nil) ==> now == w)
            && (w.procs[p].phase == Confirming ==>
                  && now.locks == w.locks - {w.procs[p].tag.agent}
                  && now.procs[p].phase == Done(if yes then Nil else Aborted)
                  && now.images == (if yes then w.images + {w.procs[p].tag} else w.images)
                  && now.built == w.built + (if yes then [w.procs[p].tag] else []))
  {
    assert w.built + [] == w.built;
  }

  lemma PlayThree(w: World, a: Event, b: Event, c: Event)
    ensures Play(w, [a, b, c]) == Step(Step(Step(w, a), b), c)
  {
    hide Step;
    var w1 := Step(w, a);
    var w2 := Step(w1, b);
    assert [a, b, c][1..] == [b, c] && [b, c][1..] == [c] && [c][1..] == [];
    assert Play(w2, [c]) == Play(Step(w2, c), []);
    assert Play(w1, [b, c]) == Play(w2, [c]);
  }

  lemma PlayFour(w: World, a: Event, b: Event, c: Event, d: Event)
    ensures Play(w, [a, b, c, d]) == Step(Step(Step(Step(w, a), b), c), d)
  {
    hide Step;
    assert [a, b, c, d][1..] == [b, c, d];
    PlayThree(Step(w, a), b, c, d);
  }

  lemma {:induction false} PlaySplit(w: World, a: seq<Event>, b: seq<Event>)
    ensures Play(w, a + b) == Play(Play(w, a), b)
    decreases |a|
  {
    hide Step;
    if a == [] {
      assert a + b == b;
    } else {
      assert (a + b)[1..] == a[1..] + b;
      PlaySplit(Step(w, a[0]), a[1..], b);
    }
  }
}
