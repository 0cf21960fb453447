/** Concurrent preparation of one plume-rise package: a lock, a private staged build, a receipt
    and an atomic publish. */
module Packages {
  import opened Outcome
  import opened Permutations

  type Content = int
  type Hash = int

  datatype Receipt = Receipt(inputs: map<string, Hash>, outputs: map<string, Hash>)

  /** A package directory: its files, and the receipt once it has been written. */
  datatype Package = Package(files: map<string, Content>, receipt: Option<Receipt>)

  datatype Pc =
    | Waiting
    | Locked
    | Signed(signature: map<string, Hash>)
    | Building(signature: map<string, Hash>, stage: nat)
    | Sealed(signature: map<string, Hash>, stage: nat)
    | Cleaning(signature: map<string, Hash>, stage: nat, published: bool)
    | Returned(signature: map<string, Hash>)
    | Raised
    | Killed

  /** `inputs` are the files of the run's configuration; `wants` names those each process uses. */
  datatype State = State(inputs: map<string, Content>, output: Option<Package>, stages: map<nat, Package>,
                         used: set<nat>, lock: Option<nat>, pcs: seq<Pc>)

  datatype World = World(wants: seq<set<string>>, hash: Content -> Hash)

  datatype Action =
    | Acquire
    | Sign
    | BadInputs
    | Reuse
    | RejectStale
    | OpenStage(stage: nat)
    | Write(name: string, content: Content)
    | Seal
    | BuildFails
    | Publish
    | CleanUp
    | Kill

  /** What happens outside the tool: inputs are edited, the published directory is tampered with or removed. */
  datatype Outside = Edit(name: string, content: Content) | Tamper(files: map<string, Content>) | Discard

  function Hashes(w: World, files: map<string, Content>): map<string, Hash> {
    map n | n in files :: w.hash(files[n])
  }

  /** The receipt agrees with the given inputs and with the files beside it. */
  predicate Agrees(w: World, package: Package, signature: map<string, Hash>) {
    package.receipt == Some(Receipt(signature, Hashes(w, package.files)))
  }

  predicate InSection(pc: Pc) {
    pc.Locked? || pc.Signed? || pc.Building? || pc.Sealed? || pc.Cleaning?
  }

  predicate HasStage(pc: Pc) { pc.Building? || pc.Sealed? || pc.Cleaning? }

  predicate Enabled(w: World, s: State, p: nat, a: Action) {
    && p < |s.pcs| == |w.wants|
    && var pc := s.pcs[p];
       match a
       case Acquire => pc.Waiting? && s.lock.None?
       case Sign => pc.Locked? && w.wants[p] <= s.inputs.Keys
       case BadInputs => pc.Locked?
       case Reuse => pc.Signed? && s.output.Some? && Agrees(w, s.output.value, pc.signature)
       case RejectStale => pc.Signed? && s.output.Some? && !Agrees(w, s.output.value, pc.signature)
       case OpenStage(t) => pc.Signed? && s.output.None? && t !in s.used
       case Write(_, _) => pc.Building? && pc.stage in s.stages
       case Seal => pc.Building? && pc.stage in s.stages
       case BuildFails => pc.Building? || pc.Sealed?
       case Publish => pc.Sealed? && pc.stage in s.stages && s.output.None?
       case CleanUp => pc.Cleaning?
       case Kill => pc.Waiting? || InSection(pc)
  }

  function Signature(w: World, s: State, p: nat): map<string, Hash>
    requires p < |w.wants| && w.wants[p] <= s.inputs.Keys
  {
    map n | n in w.wants[p] :: w.hash(s.inputs[n])
  }

  function Released(s: State, p: nat): Option<nat> { if s.lock == Some(p) then None else s.lock }

  function After(w: World, s: State, p: nat, a: Action): (after: State)
    requires Enabled(w, s, p, a)
    ensures |after.pcs| == |s.pcs|
  {
    var pc := s.pcs[p];
    match a
    case Acquire => s.(lock := Some(p), pcs := s.pcs[p := Locked])
    case Sign => s.(pcs := s.pcs[p := Signed(Signature(w, s, p))])
    case BadInputs => s.(lock := Released(s, p), pcs := s.pcs[p := Raised])
    case Reuse => s.(lock := Released(s, p), pcs := s.pcs[p := Returned(pc.signature)])
    case RejectStale => s.(lock := Released(s, p), pcs := s.pcs[p := Raised])
    case OpenStage(t) =>
      s.(stages := s.stages[t := Package(map[], None)], used := s.used + {t},
         pcs := s.pcs[p := Building(pc.signature, t)])
    case Write(n, c) =>
      s.(stages := s.stages[pc.stage := s.stages[pc.stage].(files := s.stages[pc.stage].files[n := c])])
    case Seal =>
      var files := s.stages[pc.stage].files;
      s.(stages := s.stages[pc.stage := Package(files, Some(Receipt(pc.signature, Hashes(w, files))))],
         pcs := s.pcs[p := Sealed(pc.signature, pc.stage)])
    case BuildFails => s.(pcs := s.pcs[p := Cleaning(pc.signature, pc.stage, false)])
    case Publish =>
      s.(output := Some(s.stages[pc.stage]), stages := s.stages - {pc.stage},
         pcs := s.pcs[p := Cleaning(pc.signature, pc.stage, true)])
    case CleanUp =>
      s.(stages := s.stages - {pc.stage}, lock := Released(s, p),
         pcs := s.pcs[p := if pc.published then Returned(pc.signature) else Raised])
    case Kill => s.(lock := Released(s, p), pcs := s.pcs[p := Killed])
  }

  function Outdoors(s: State, o: Outside): State {
    match o
    case Edit(n, c) => s.(inputs := s.inputs[n := c])
    case Tamper(files) => if s.output.Some? then s.(output := Some(s.output.value.(files := files))) else s
    case Discard => s.(output := None)
  }

  datatype Event = Tool(process: nat, action: Action) | Outdoor(outside: Outside)

  predicate Possible(w: World, s: State, e: Event) { e.Tool? ==> Enabled(w, s, e.process, e.action) }

  function Next(w: World, s: State, e: Event): State
    requires Possible(w, s, e)
  {
    if e.Tool? then After(w, s, e.process, e.action) else Outdoors(s, e.outside)
  }

  predicate IsRun(w: World, s: State, events: seq<Event>)
    decreases |events|, 0
  {
    events == [] ||
    (var n := |events| - 1;
     IsRun(w, s, events[..n]) && Possible(w, End(w, s, events[..n]), events[n]))
  }

  function End(w: World, s: State, events: seq<Event>): State
    requires IsRun(w, s, events)
    decreases |events|, 1
  {
    if events == [] then s
    else
      var n := |events| - 1;
      Next(w, End(w, s, events[..n]), events[n])
  }

  ghost predicate Initial(w: World, s: State) {
    && |s.pcs| == |w.wants| && (forall p :: 0 <= p < |s.pcs| ==> s.pcs[p] == Waiting)
    && s.lock.None? && s.output.None? && s.stages == map[]
  }

  // ---- Safety ----

  /** Whoever is between taking and releasing the lock is its one holder. */
  ghost predicate Exclusive(w: World, s: State) {
    |s.pcs| == |w.wants| && forall p :: 0 <= p < |s.pcs| && InSection(s.pcs[p]) ==> s.lock == Some(p)
  }

  ghost predicate StageIs(w: World, s: State, pc: Pc) {
    && (HasStage(pc) ==> pc.stage in s.used)
    && (pc.Sealed? ==> pc.stage in s.stages && Agrees(w, s.stages[pc.stage], pc.signature))
  }

  /** Stages are private, and a sealed one carries its receipt. */
  ghost predicate StagesHold(w: World, s: State) {
    && |s.pcs| == |w.wants|
    && (forall t :: t in s.stages ==> t in s.used)
    && (forall p :: 0 <= p < |s.pcs| ==> StageIs(w, s, s.pcs[p]))
    && (forall p, q :: 0 <= p < q < |s.pcs| && HasStage(s.pcs[p]) && HasStage(s.pcs[q]) ==>
      s.pcs[p].stage != s.pcs[q].stage)
  }

  lemma NextKeepsExclusive(w: World, s: State, e: Event)
    requires Exclusive(w, s) && Possible(w, s, e)
    ensures Exclusive(w, Next(w, s, e))
  {
  }

  lemma SealAgrees(w: World, files: map<string, Content>, signature: map<string, Hash>)
    ensures Agrees(w, Package(files, Some(Receipt(signature, Hashes(w, files)))), signature)
  {
  }

  lemma StepKeepsEachStage(w: World, s: State, p: nat, a: Action, q: nat)
    requires StagesHold(w, s) && Enabled(w, s, p, a) && q < |s.pcs|
    ensures StageIs(w, After(w, s, p, a), After(w, s, p, a).pcs[q])
  {
    hide Hashes, Signature, Agrees, Released;
    assert StageIs(w, s, s.pcs[q]) && StageIs(w, s, s.pcs[p]);
    if a.Seal? {
      SealAgrees(w, s.stages[s.pcs[p].stage].files, s.pcs[p].signature);
    }
  }

  lemma StepKeepsStages(w: World, s: State, p: nat, a: Action)
    requires StagesHold(w, s) && Enabled(w, s, p, a)
    ensures StagesHold(w, After(w, s, p, a))
  {
    hide Hashes, Signature, Agrees, Released, StageIs;
    var after := After(w, s, p, a);
    forall q | 0 <= q < |s.pcs|
      ensures StageIs(w, after, after.pcs[q])
    {
      StepKeepsEachStage(w, s, p, a, q);
    }
    StageIsUsed(w, s, p);
    forall q | 0 <= q < |s.pcs|
      ensures HasStage(s.pcs[q]) ==> s.pcs[q].stage in s.used
    {
      StageIsUsed(w, s, q);
    }
  }

  lemma StageIsUsed(w: World, s: State, p: nat)
    requires p < |s.pcs| && StageIs(w, s, s.pcs[p])
    ensures HasStage(s.pcs[p]) ==> s.pcs[p].stage in s.used
  {
  }

  lemma OutdoorsKeepsStages(w: World, s: State, o: Outside)
    requires StagesHold(w, s)
    ensures StagesHold(w, Outdoors(s, o))
  {
    hide Agrees;
    forall q | 0 <= q < |s.pcs|
      ensures StageIs(w, Outdoors(s, o), s.pcs[q])
    {
      assert StageIs(w, s, s.pcs[q]);
    }
  }

  lemma NextKeepsStages(w: World, s: State, e: Event)
    requires StagesHold(w, s) && Possible(w, s, e)
    ensures StagesHold(w, Next(w, s, e))
  {
    hide StagesHold, Enabled, After, Outdoors;
    if e.Tool? {
      StepKeepsStages(w, s, e.process, e.action);
    } else {
      OutdoorsKeepsStages(w, s, e.outside);
    }
  }

  /** At most one process is ever past the lock, in particular at most one builds. */
  lemma {:induction false} RunsAreExclusive(w: World, s: State, events: seq<Event>)
    requires Initial(w, s) && IsRun(w, s, events)
    ensures Exclusive(w, End(w, s, events)) && StagesHold(w, End(w, s, events))
    decreases |events|
  {
    hide Possible, Next, Exclusive, StagesHold;
    if events == [] {
      InitialHolds(w, s);
    } else {
      var n := |events| - 1;
      RunsAreExclusive(w, s, events[..n]);
      NextKeepsExclusive(w, End(w, s, events[..n]), events[n]);
      NextKeepsStages(w, End(w, s, events[..n]), events[n]);
    }
  }

  lemma InitialHolds(w: World, s: State)
    requires Initial(w, s)
    ensures Exclusive(w, s) && StagesHold(w, s)
  {
  }

  lemma OneInSection(w: World, s: State, events: seq<Event>, p: nat, q: nat)
    requires Initial(w, s) && IsRun(w, s, events)
    requires p < |End(w, s, events).pcs| && q < |End(w, s, events).pcs|
    requires InSection(End(w, s, events).pcs[p]) && InSection(End(w, s, events).pcs[q])
    ensures p == q
  {
    hide InSection;
    RunsAreExclusive(w, s, events);
    assert End(w, s, events).lock == Some(p) && End(w, s, events).lock == Some(q);
  }

  /** No process changes a published package, and none removes it. */
  lemma StepKeepsPublished(w: World, s: State, p: nat, a: Action)
    requires Enabled(w, s, p, a) && s.output.Some?
    ensures After(w, s, p, a).output == s.output
  {
  }

  /** A package that is reused or has just been renamed agrees with the inputs its process signed. */
  lemma PublishedAgrees(w: World, s: State, p: nat, a: Action)
    requires StagesHold(w, s) && Enabled(w, s, p, a) && (a.Reuse? || a.Publish?)
    ensures
      var after := After(w, s, p, a);
      after.output.Some? && HasSignature(after.pcs[p]) && Agrees(w, after.output.value, after.pcs[p].signature)
  {
    hide Hashes, Signature;
    assert StageIs(w, s, s.pcs[p]);
  }

  predicate HasSignature(pc: Pc) { HasStage(pc) || pc.Signed? || pc.Returned? }

  // ---- Runs without tampering ----

  ghost predicate Untampered(events: seq<Event>) {
    forall i :: 0 <= i < |events| && events[i].Outdoor? ==> events[i].outside.Edit?
  }

  /** Once there is a package, every later state has the very same one, whatever the processes do and
      however inputs are edited. */
  lemma {:induction false} PublishedNeverChanges(w: World, s: State, events: seq<Event>, n: nat)
    requires IsRun(w, s, events) && n <= |events| && Untampered(events[n..])
    requires IsRun(w, s, events[..n]) && End(w, s, events[..n]).output.Some?
    ensures End(w, s, events).output == End(w, s, events[..n]).output
    decreases |events|
  {
    hide Enabled, After;
    if n == |events| {
      assert events[..n] == events;
    } else {
      var m := |events| - 1;
      assert events[..m][..n] == events[..n];
      assert forall i :: 0 <= i < m - n ==> events[..m][n..][i] == events[n..][i];
      PublishedNeverChanges(w, s, events[..m], n);
      assert events[m] == events[n..][m - n];
      if events[m].Tool? {
        StepKeepsPublished(w, End(w, s, events[..m]), events[m].process, events[m].action);
      }
    }
  }

  predicate Succeeded(pc: Pc) { pc.Returned? || (pc.Cleaning? && pc.published) }

  /** Every process that succeeded signed the very inputs the published receipt lists. */
  ghost predicate Settled(w: World, s: State) {
    forall p :: 0 <= p < |s.pcs| && Succeeded(s.pcs[p]) ==>
      s.output.Some? && Agrees(w, s.output.value, s.pcs[p].signature)
  }

  lemma NextKeepsSettled(w: World, s: State, e: Event)
    requires StagesHold(w, s) && Settled(w, s) && Possible(w, s, e)
    requires e.Outdoor? ==> e.outside.Edit?
    ensures Settled(w, Next(w, s, e))
  {
    hide Hashes, Signature, Agrees, Released;
    if e.Tool? {
      assert StageIs(w, s, s.pcs[e.process]);
      assert Succeeded(s.pcs[e.process]) ==> s.output.Some?;
    }
  }

  /** However many processes prepare one package, with inputs edited at any time: a process that
      succeeds leaves a package whose receipt lists the inputs it signed and the files that are
      there, so all of them signed the same inputs. */
  lemma {:induction false} SuccessMeansAgreement(w: World, s: State, events: seq<Event>)
    requires Initial(w, s) && IsRun(w, s, events) && Untampered(events)
    ensures Settled(w, End(w, s, events))
    decreases |events|
  {
    hide Possible, Next, StagesHold, Exclusive, Settled;
    if events == [] {
      NothingSucceededYet(w, s);
    } else {
      var n := |events| - 1;
      SuccessMeansAgreement(w, s, events[..n]);
      RunsAreExclusive(w, s, events[..n]);
      NextKeepsSettled(w, End(w, s, events[..n]), events[n]);
    }
  }

  lemma NothingSucceededYet(w: World, s: State)
    requires Initial(w, s)
    ensures Settled(w, s)
  {
  }

  /** At the moment a process returns, reusing or after building, the package agrees with the inputs it
      signed: for a builder if nobody tampered with it, for a process that reuses it in any case. */
  lemma ReturnMeansAgreement(w: World, s: State, events: seq<Event>, p: nat, a: Action)
    requires Initial(w, s) && IsRun(w, s, events) && Enabled(w, End(w, s, events), p, a)
    requires After(w, End(w, s, events), p, a).pcs[p].Returned? && (a.Reuse? || Untampered(events))
    ensures
      var after := After(w, End(w, s, events), p, a);
      after.output.Some? && Agrees(w, after.output.value, after.pcs[p].signature)
  {
    hide Hashes, Signature, Agrees, StagesHold, Exclusive;
    var before := End(w, s, events);
    RunsAreExclusive(w, s, events);
    if a.Reuse? {
      PublishedAgrees(w, before, p, a);
    } else {
      SuccessMeansAgreement(w, s, events);
      NextKeepsSettled(w, before, Tool(p, a));
      assert Succeeded(After(w, before, p, a).pcs[p]);
    }
  }

  lemma SuccessesSignedTheSame(w: World, s: State, events: seq<Event>, p: nat, q: nat)
    requires Initial(w, s) && IsRun(w, s, events) && Untampered(events)
    requires p < |End(w, s, events).pcs| && q < |End(w, s, events).pcs|
    requires End(w, s, events).pcs[p].Returned? && End(w, s, events).pcs[q].Returned?
    ensures End(w, s, events).pcs[p].signature == End(w, s, events).pcs[q].signature
  {
    SuccessMeansAgreement(w, s, events);
    assert Succeeded(End(w, s, events).pcs[p]) && Succeeded(End(w, s, events).pcs[q]);
  }

  // ---- Progress ----

  /** Whoever holds the lock is between taking and releasing it. */
  ghost predicate HeldFromWithin(s: State) {
    s.lock.Some? ==> s.lock.value < |s.pcs| && InSection(s.pcs[s.lock.value])
  }

  lemma NextKeepsHolder(w: World, s: State, e: Event)
    requires Exclusive(w, s) && HeldFromWithin(s) && Possible(w, s, e)
    ensures HeldFromWithin(Next(w, s, e))
  {
    hide Hashes, Signature, Agrees;
  }

  lemma {:induction false} RunsHoldFromWithin(w: World, s: State, events: seq<Event>)
    requires Initial(w, s) && IsRun(w, s, events)
    ensures HeldFromWithin(End(w, s, events))
    decreases |events|
  {
    hide Possible, Next, Exclusive;
    if events != [] {
      var n := |events| - 1;
      RunsHoldFromWithin(w, s, events[..n]);
      RunsAreExclusive(w, s, events[..n]);
      NextKeepsHolder(w, End(w, s, events[..n]), events[n]);
    }
  }

  /** What a process past the lock can do next by itself. */
  lemma OnwardStep(w: World, s: State, p: nat) returns (a: Action)
    requires p < |s.pcs| == |w.wants| && InSection(s.pcs[p])
    ensures Enabled(w, s, p, a) && !a.Kill?
    ensures s.pcs[p].Locked? && w.wants[p] <= s.inputs.Keys ==> a.Sign?
    ensures s.pcs[p].Sealed? && s.pcs[p].stage in s.stages && s.output.None? ==> a.Publish?
  {
    hide Hashes, Agrees;
    match s.pcs[p]
    case Locked => a := if w.wants[p] <= s.inputs.Keys then Sign else BadInputs;
    case Signed(signature) =>
      if s.output.None? {
        var t := LargerThanAll(s.used);
        a := OpenStage(t);
      } else {
        a := if Agrees(w, s.output.value, signature) then Reuse else RejectStale;
      }
    case Building(_, _) => a := BuildFails;
    case Sealed(_, stage) => a := if stage in s.stages && s.output.None? then Publish else BuildFails;
    case Cleaning(_, _, _) => a := CleanUp;
  }

  /** No deadlock: while some process has not ended, the holder of the lock, or with the lock free any that
      waits for it, can go on. */
  lemma NeverDeadlocked(w: World, s: State, events: seq<Event>, p: nat) returns (q: nat, a: Action)
    requires Initial(w, s) && IsRun(w, s, events) && p < |End(w, s, events).pcs|
    requires End(w, s, events).pcs[p].Waiting? || InSection(End(w, s, events).pcs[p])
    ensures Enabled(w, End(w, s, events), q, a) && !a.Kill?
  {
    hide Enabled, After;
    var now := End(w, s, events);
    OnePcEach(w, s, events);
    RunsHoldFromWithin(w, s, events);
    if now.lock.Some? {
      q := now.lock.value;
      a := OnwardStep(w, now, q);
    } else if InSection(now.pcs[p]) {
      q := p;
      a := OnwardStep(w, now, q);
    } else {
      q, a := p, Acquire;
      FreeLockIsTaken(w, now, p);
    }
  }

  lemma FreeLockIsTaken(w: World, s: State, p: nat)
    requires p < |s.pcs| == |w.wants| && s.pcs[p].Waiting? && s.lock.None?
    ensures Enabled(w, s, p, Acquire)
  {
  }

  // ---- What a signature and a receipt say about contents ----

  /** The hashes are those of the named files, and of no others. */
  ghost predicate Lists(w: World, hashes: map<string, Hash>, files: map<string, Content>, names: set<string>) {
    hashes.Keys == names && forall n :: n in names ==> n in files && hashes[n] == w.hash(files[n])
  }

  lemma StepKeepsSignature(w: World, s: State, e: Event, p: nat)
    requires Possible(w, s, e) && e != Tool(p, Sign)
    requires p < |Next(w, s, e).pcs| && HasSignature(Next(w, s, e).pcs[p])
    ensures p < |s.pcs| && HasSignature(s.pcs[p]) && s.pcs[p].signature == Next(w, s, e).pcs[p].signature
  {
    hide Hashes, Signature, Agrees, Released;
  }

  /** A process that has signed holds, for each input it wants, the hash of the contents that input had at
      the moment it signed. */
  lemma {:induction false} SignedContents(w: World, s: State, events: seq<Event>, p: nat) returns (n: nat)
    requires Initial(w, s) && IsRun(w, s, events)
    requires p < |End(w, s, events).pcs| == |w.wants| && HasSignature(End(w, s, events).pcs[p])
    ensures n < |events| && events[n] == Tool(p, Sign) && IsRun(w, s, events[..n])
    ensures Lists(w, End(w, s, events).pcs[p].signature, End(w, s, events[..n]).inputs, w.wants[p])
    decreases |events|
  {
    hide Possible, Next, Lists;
    if events == [] {
      assert false;
    }
    n := |events| - 1;
    if events[n] == Tool(p, Sign) {
      SigningLists(w, End(w, s, events[..n]), p);
    } else {
      var m := n;
      StepKeepsSignature(w, End(w, s, events[..m]), events[m], p);
      OnePcEach(w, s, events[..m]);
      n := SignedContents(w, s, events[..m], p);
      assert events[..m][..n] == events[..n];
    }
  }

  lemma SigningLists(w: World, s: State, p: nat)
    requires Possible(w, s, Tool(p, Sign))
    ensures p < |w.wants| && Next(w, s, Tool(p, Sign)).pcs[p].Signed?
    ensures Lists(w, Next(w, s, Tool(p, Sign)).pcs[p].signature, s.inputs, w.wants[p])
  {
  }

  ghost predicate NotEdited(events: seq<Event>, names: set<string>) {
    forall i :: 0 <= i < |events| && events[i].Outdoor? && events[i].outside.Edit? ==> events[i].outside.name !in names
  }

  lemma {:induction false} UneditedStays(w: World, s: State, events: seq<Event>, n: nat, names: set<string>)
    requires IsRun(w, s, events) && n <= |events| && IsRun(w, s, events[..n]) && NotEdited(events[n..], names)
    ensures forall x :: x in names && x in End(w, s, events[..n]).inputs ==>
      x in End(w, s, events).inputs && End(w, s, events).inputs[x] == End(w, s, events[..n]).inputs[x]
    decreases |events|
  {
    hide Enabled, After;
    if n == |events| {
      assert events[..n] == events;
    } else {
      var m := |events| - 1;
      assert events[..m][..n] == events[..n];
      assert forall i :: 0 <= i < m - n ==> events[..m][n..][i] == events[n..][i];
      UneditedStays(w, s, events[..m], n, names);
      assert events[m] == events[n..][m - n];
      if events[m].Tool? {
        ProcessesLeaveInputs(w, End(w, s, events[..m]), events[m].process, events[m].action);
      }
    }
  }

  lemma ProcessesLeaveInputs(w: World, s: State, p: nat, a: Action)
    requires Enabled(w, s, p, a)
    ensures After(w, s, p, a).inputs == s.inputs
  {
  }

  lemma AgreementLists(w: World, package: Package, signature: map<string, Hash>)
    requires Agrees(w, package, signature)
    ensures package.receipt.Some? && package.receipt.value.inputs == signature
    ensures Lists(w, package.receipt.value.outputs, package.files, package.files.Keys)
  {
  }

  /** At the moment a process returns, the package's receipt lists exactly the files that are there and
      exactly the inputs the process wants; and if those were not edited after it signed, it lists them
      as they are now. */
  lemma ReturnedPackageIsCurrent(w: World, s: State, events: seq<Event>, p: nat, a: Action) returns (n: nat)
    requires Initial(w, s) && IsRun(w, s, events) && Enabled(w, End(w, s, events), p, a)
    requires After(w, End(w, s, events), p, a).pcs[p].Returned? && (a.Reuse? || Untampered(events))
    ensures n < |events| && events[n] == Tool(p, Sign) && IsRun(w, s, events[..n])
    ensures
      var after := After(w, End(w, s, events), p, a);
      && after.output.Some? && after.output.value.receipt.Some?
      && var receipt := after.output.value.receipt.value;
         && Lists(w, receipt.outputs, after.output.value.files, after.output.value.files.Keys)
         && Lists(w, receipt.inputs, End(w, s, events[..n]).inputs, w.wants[p])
         && (NotEdited(events[n..], w.wants[p]) ==> Lists(w, receipt.inputs, after.inputs, w.wants[p]))
  {
    hide Hashes, Signature, Agrees, StagesHold, Exclusive, After;
    var before, after := End(w, s, events), After(w, End(w, s, events), p, a);
    OnePcEach(w, s, events);
    SignedBeforeReturning(w, before, p, a);
    ReturnMeansAgreement(w, s, events, p, a);
    AgreementLists(w, after.output.value, after.pcs[p].signature);
    n := SignedContents(w, s, events, p);
    ProcessesLeaveInputs(w, before, p, a);
    if NotEdited(events[n..], w.wants[p]) {
      UneditedStays(w, s, events, n, w.wants[p]);
    }
  }

  lemma SignedBeforeReturning(w: World, s: State, p: nat, a: Action)
    requires Enabled(w, s, p, a) && p < |After(w, s, p, a).pcs| && After(w, s, p, a).pcs[p].Returned?
    ensures p < |s.pcs| && HasSignature(s.pcs[p]) && p < |After(w, s, p, a).pcs|
    ensures After(w, s, p, a).pcs[p].signature == s.pcs[p].signature
  {
    hide Hashes, Signature, Agrees, Released;
  }

  lemma OnePcEach(w: World, s: State, events: seq<Event>)
    requires Initial(w, s) && IsRun(w, s, events)
    ensures |End(w, s, events).pcs| == |w.wants|
  {
    RunsAreExclusive(w, s, events);
  }

  /** A package whose receipt does not list a wanted input as it was when the process signed, or lists an
      input it does not want, or does not list the files that are there, is never reused: the process can
      only reject it, and ends with an error. */
  lemma StalePackageIsRejected(w: World, s: State, events: seq<Event>, p: nat) returns (n: nat)
    requires Initial(w, s) && IsRun(w, s, events)
    requires p < |End(w, s, events).pcs| == |w.wants| && End(w, s, events).pcs[p].Signed?
    requires End(w, s, events).output.Some?
    ensures n < |events| && events[n] == Tool(p, Sign) && IsRun(w, s, events[..n])
    ensures
      var now, package := End(w, s, events), End(w, s, events).output.value;
      package.receipt.None?
      || !Lists(w, package.receipt.value.inputs, End(w, s, events[..n]).inputs, w.wants[p])
      || !Lists(w, package.receipt.value.outputs, package.files, package.files.Keys) ==>
        && !Enabled(w, now, p, Reuse)
        && Enabled(w, now, p, RejectStale) && After(w, now, p, RejectStale).pcs[p] == Raised
        && forall a :: Enabled(w, now, p, a) ==> a.RejectStale? || a.Kill?
  {
    hide Hashes, Signature, Released;
    n := SignedContents(w, s, events, p);
    var now := End(w, s, events);
    if Agrees(w, now.output.value, now.pcs[p].signature) {
      AgreementLists(w, now.output.value, now.pcs[p].signature);
    }
  }
}
