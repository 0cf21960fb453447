/** Concurrent downloads into a shared cache: private temporary files and atomic replacement. */
module Downloads {
  import opened Outcome
  import opened Permutations

  /** A file being or having been downloaded: `bytes` of its `total` are there. */
  datatype Data = Data(url: string, total: nat, bytes: nat)

  predicate Whole(d: Data) { 0 < d.bytes == d.total }

  /** A candidate whose environment variable is unset cannot be expanded. */
  datatype Candidate = Unset | At(location: string)

  datatype Job = Job(artifact: string, local: seq<Candidate>, urls: seq<Candidate>)

  /** The jobs of all processes, the local files that exist, and whether a temporary name that was
      removed may be handed out again. */
  datatype World = World(jobs: seq<Job>, files: set<string>, namesRecur: bool)

  datatype Access = Local(path: string) | Cached | Https(url: string)

  datatype Pc =
    | Start
    | Trying(next: nat)
    | Fetching(next: nat, tmp: nat)
    | Fetched(next: nat, tmp: nat)
    | Removing(next: nat, tmp: nat)
    | Published(next: nat, tmp: nat)
    | Returned(access: Access)
    | Raised
    | Killed

  datatype State = State(cache: map<string, Data>, temps: map<nat, Data>, used: set<nat>, pcs: seq<Pc>)

  /** One atomic step of a process. `Create`, `Receive` and the two ways curl can end choose what
      the environment does; `Kill` ends the process without running its cleanup. */
  datatype Action =
    | Look
    | Skip
    | Create(tmp: nat, total: nat)
    | Receive(bytes: nat)
    | CurlSucceeds
    | CurlFails
    | Examine
    | Remove
    | GiveUp
    | Kill

  /** The first local candidate that is a file. */
  function FirstLocal(local: seq<Candidate>, files: set<string>): (r: Option<string>)
    ensures r.Some? ==> At(r.value) in local && r.value in files
    ensures r.None? ==> forall c :: c in local && c.At? ==> c.location !in files
  {
    if local == [] then None
    else if local[0].At? && local[0].location in files then Some(local[0].location)
    else FirstLocal(local[1..], files)
  }

  predicate Running(pc: Pc) { !pc.Returned? && !pc.Raised? && !pc.Killed? }

  predicate HasTemp(pc: Pc) { pc.Fetching? || pc.Fetched? || pc.Removing? }

  /** The process still names its temporary file, in the published case after the file is gone. */
  predicate Names(pc: Pc) { HasTemp(pc) || pc.Published? }

  predicate Enabled(w: World, s: State, p: nat, a: Action) {
    && p < |s.pcs| == |w.jobs|
    && var pc, urls := s.pcs[p], w.jobs[p].urls;
       match a
       case Look => pc.Start?
       case Skip => pc.Trying? && pc.next < |urls| && urls[pc.next].Unset?
       case Create(t, _) =>
         pc.Trying? && pc.next < |urls| && urls[pc.next].At? && t !in s.temps && (w.namesRecur || t !in s.used)
       case Receive(n) => pc.Fetching? && pc.tmp in s.temps && n <= s.temps[pc.tmp].total
       case CurlSucceeds => pc.Fetching? && pc.tmp in s.temps && s.temps[pc.tmp].bytes == s.temps[pc.tmp].total
       case CurlFails => pc.Fetching?
       case Examine => pc.Fetched? && pc.tmp in s.temps
       case Remove => pc.Removing? || pc.Published?
       case GiveUp => pc.Trying? && pc.next >= |urls|
       case Kill => Running(pc)
  }

  function Unlinked(temps: map<nat, Data>, t: nat): map<nat, Data> { temps - {t} }

  function After(w: World, s: State, p: nat, a: Action): (after: State)
    requires Enabled(w, s, p, a)
    ensures |after.pcs| == |s.pcs|
  {
    var job, pc := w.jobs[p], s.pcs[p];
    match a
    case Look =>
      var local := FirstLocal(job.local, w.files);
      s.(pcs := s.pcs[p :=
        if local.Some? then Returned(Local(local.value))
        else if job.artifact in s.cache && s.cache[job.artifact].bytes > 0 then Returned(Cached)
        else Trying(0)])
    case Skip => s.(pcs := s.pcs[p := Trying(pc.next + 1)])
    case Create(t, total) =>
      s.(temps := s.temps[t := Data(job.urls[pc.next].location, total, 0)], used := s.used + {t},
         pcs := s.pcs[p := Fetching(pc.next, t)])
    case Receive(n) => s.(temps := s.temps[pc.tmp := s.temps[pc.tmp].(bytes := n)])
    case CurlSucceeds => s.(pcs := s.pcs[p := Fetched(pc.next, pc.tmp)])
    case CurlFails => s.(pcs := s.pcs[p := Removing(pc.next, pc.tmp)])
    case Examine =>
      if s.temps[pc.tmp].bytes == 0 then s.(pcs := s.pcs[p := Removing(pc.next, pc.tmp)])
      else
        s.(cache := s.cache[job.artifact := s.temps[pc.tmp]], temps := Unlinked(s.temps, pc.tmp),
           pcs := s.pcs[p := Published(pc.next, pc.tmp)])
    case Remove =>
      s.(temps := Unlinked(s.temps, pc.tmp),
         pcs := s.pcs[p :=
           if pc.Published? && pc.next < |job.urls| &&
             job.urls[pc.next].At? then Returned(Https(job.urls[pc.next].location))
           else Trying(pc.next + 1)])
    case GiveUp => s.(pcs := s.pcs[p := Raised])
    case Kill => s.(pcs := s.pcs[p := Killed])
  }

  datatype Step = Step(process: nat, action: Action)

  predicate IsRun(w: World, s: State, steps: seq<Step>)
    decreases |steps|, 0
  {
    steps == [] ||
    (var n := |steps| - 1;
     IsRun(w, s, steps[..n]) && Enabled(w, End(w, s, steps[..n]), steps[n].process, steps[n].action))
  }

  function End(w: World, s: State, steps: seq<Step>): State
    requires IsRun(w, s, steps)
    decreases |steps|, 1
  {
    if steps == [] then s
    else
      var n := |steps| - 1;
      After(w, End(w, s, steps[..n]), steps[n].process, steps[n].action)
  }

  /** A file that is there with some content is complete. */
  predicate EmptyOrWhole(d: Data) { d.bytes > 0 ==> Whole(d) }

  /** Nothing has run yet; what the cache already holds is complete or empty. */
  ghost predicate Initial(w: World, s: State) {
    && |s.pcs| == |w.jobs| && (forall p :: 0 <= p < |s.pcs| ==> s.pcs[p] == Start)
    && s.temps == map[] && (forall a :: a in s.cache ==> EmptyOrWhole(s.cache[a]))
  }

  // ---- Safety ----

  ghost predicate TempIs(w: World, s: State, p: nat)
    requires p < |s.pcs| == |w.jobs|
  {
    var pc := s.pcs[p];
    && (HasTemp(pc) ==>
          && pc.tmp in s.temps && pc.next < |w.jobs[p].urls|
          && w.jobs[p].urls[pc.next] == At(s.temps[pc.tmp].url))
    && (pc.Fetched? ==> s.temps[pc.tmp].bytes == s.temps[pc.tmp].total)
  }

  /** Each temporary file belongs to the one process that created it. */
  ghost predicate OwnTemps(w: World, s: State) {
    && |s.pcs| == |w.jobs|
    && (forall t :: t in s.temps ==> t in s.used)
    && (forall p :: 0 <= p < |s.pcs| ==> TempIs(w, s, p))
    && (forall p :: 0 <= p < |s.pcs| && Names(s.pcs[p]) ==> s.pcs[p].tmp in s.used)
    && (forall p, q :: 0 <= p < q < |s.pcs| && Names(s.pcs[p]) && Names(s.pcs[q]) ==> s.pcs[p].tmp != s.pcs[q].tmp)
    && (forall p :: 0 <= p < |s.pcs| && s.pcs[p].Published? ==> s.pcs[p].tmp !in s.temps)
  }

  /** The data is one of the artifact's own downloads, or was in the cache at the start. */
  ghost predicate Genuine(w: World, start: State, a: string, d: Data) {
    || (a in start.cache && d == start.cache[a])
    || exists p :: 0 <= p < |w.jobs| && w.jobs[p].artifact == a && At(d.url) in w.jobs[p].urls
  }

  /** A process that returned a path into the cache, or is about to. */
  predicate Relies(pc: Pc) { pc.Published? || (pc.Returned? && !pc.access.Local?) }

  /** Every cached file is one complete download, unless it was there empty from the start, and every
      path returned from the cache names a complete one. */
  ghost predicate CompleteCache(w: World, start: State, s: State) {
    && |s.pcs| == |w.jobs|
    && (forall a :: a in s.cache ==> Genuine(w, start, a, s.cache[a]))
    && (forall a :: a in s.cache ==>
      Whole(s.cache[a]) || (s.cache[a].bytes == 0 && a in start.cache && s.cache[a] == start.cache[a]))
    && (forall p :: 0 <= p < |s.pcs| && Relies(s.pcs[p]) ==>
      w.jobs[p].artifact in s.cache && Whole(s.cache[w.jobs[p].artifact]))
  }

  lemma StepKeepsOwnTemps(w: World, s: State, p: nat, a: Action)
    requires OwnTemps(w, s) && !w.namesRecur && Enabled(w, s, p, a)
    ensures OwnTemps(w, After(w, s, p, a))
  {
    hide FirstLocal;
    var after := After(w, s, p, a);
    assert TempIs(w, s, p);
    forall q | 0 <= q < |s.pcs|
      ensures TempIs(w, after, q)
    {
      assert TempIs(w, s, q);
    }
  }

  lemma StepKeepsCompleteCache(w: World, start: State, s: State, p: nat, a: Action)
    requires OwnTemps(w, s) && CompleteCache(w, start, s) && Enabled(w, s, p, a)
    ensures CompleteCache(w, start, After(w, s, p, a))
  {
    hide FirstLocal;
    assert TempIs(w, s, p);
    var after := After(w, s, p, a);
    forall b | b in after.cache
      ensures Genuine(w, start, b, after.cache[b])
    {
      if b in s.cache && after.cache[b] == s.cache[b] {
        assert Genuine(w, start, b, s.cache[b]);
      } else {
        assert b == w.jobs[p].artifact && At(after.cache[b].url) in w.jobs[p].urls;
      }
    }
  }

  /** A step leaves every other process's temporary file and every other artifact alone. */
  lemma StepTouchesOnlyItsOwn(w: World, s: State, p: nat, a: Action, q: nat)
    requires OwnTemps(w, s) && !w.namesRecur && Enabled(w, s, p, a)
    requires q < |s.pcs| && q != p && HasTemp(s.pcs[q])
    ensures
      var after := After(w, s, p, a);
      && s.pcs[q].tmp in s.temps && s.pcs[q].tmp in after.temps
      && after.temps[s.pcs[q].tmp] == s.temps[s.pcs[q].tmp]
      && after.pcs[q] == s.pcs[q]
      && forall b :: b != w.jobs[p].artifact ==>
        (b in after.cache <==> b in s.cache) && (b in s.cache ==> after.cache[b] == s.cache[b])
  {
    hide FirstLocal;
    assert TempIs(w, s, q) && TempIs(w, s, p);
    assert Names(s.pcs[q]);
  }

  /** In every reachable state, for any number of processes and any failures and kills. */
  lemma {:induction false} RunsAreSafe(w: World, s: State, steps: seq<Step>)
    requires !w.namesRecur && Initial(w, s) && IsRun(w, s, steps)
    ensures OwnTemps(w, End(w, s, steps)) && CompleteCache(w, s, End(w, s, steps))
    decreases |steps|
  {
    hide Enabled, OwnTemps, CompleteCache;
    if steps == [] {
      InitialIsSafe(w, s);
    } else {
      var n := |steps| - 1;
      var before := End(w, s, steps[..n]);
      RunsAreSafe(w, s, steps[..n]);
      StepKeepsOwnTemps(w, before, steps[n].process, steps[n].action);
      StepKeepsCompleteCache(w, s, before, steps[n].process, steps[n].action);
    }
  }

  lemma InitialIsSafe(w: World, s: State)
    requires Initial(w, s)
    ensures OwnTemps(w, s) && CompleteCache(w, s, s)
  {
  }

  /** A path returned from the cache or from a download names a complete file, then and ever after. */
  lemma ReturnedPathsAreComplete(w: World, s: State, steps: seq<Step>, n: nat, p: nat)
    requires !w.namesRecur && Initial(w, s) && IsRun(w, s, steps) && n <= |steps| && IsRun(w, s, steps[..n])
    requires p < |w.jobs| == |End(w, s, steps[..n]).pcs|
    requires End(w, s, steps[..n]).pcs[p].Returned? && !End(w, s, steps[..n]).pcs[p].access.Local?
    ensures
      var later := End(w, s, steps);
      w.jobs[p].artifact in later.cache && Whole(later.cache[w.jobs[p].artifact])
  {
    hide Enabled, After;
    ReturnedStays(w, s, steps, n, p);
    RunsAreSafe(w, s, steps);
    assert Relies(End(w, s, steps).pcs[p]);
  }

  lemma {:induction false} ReturnedStays(w: World, s: State, steps: seq<Step>, n: nat, p: nat)
    requires IsRun(w, s, steps) && n <= |steps| && IsRun(w, s, steps[..n])
    requires p < |w.jobs| == |End(w, s, steps[..n]).pcs| && End(w, s, steps[..n]).pcs[p].Returned?
    ensures |End(w, s, steps).pcs| == |w.jobs| && End(w, s, steps).pcs[p] == End(w, s, steps[..n]).pcs[p]
    decreases |steps|
  {
    if n == |steps| {
      assert steps[..n] == steps;
    } else {
      var m := |steps| - 1;
      assert steps[..m][..n] == steps[..n];
      ReturnedStays(w, s, steps[..m], n, p);
      ReturnedIsFinal(w, End(w, s, steps[..m]), steps[m].process, steps[m].action, p);
    }
  }

  lemma ReturnedIsFinal(w: World, s: State, p: nat, a: Action, q: nat)
    requires Enabled(w, s, p, a) && q < |s.pcs| && s.pcs[q].Returned?
    ensures After(w, s, p, a).pcs[q] == s.pcs[q]
  {
  }

  // ---- What a process tries, and in which order ----

  /** The local candidates before position i name no file. */
  ghost predicate NoneBefore(local: seq<Candidate>, files: set<string>, i: nat) {
    forall j :: 0 <= j < i && j < |local| && local[j].At? ==> local[j].location !in files
  }

  lemma {:induction false} FirstLocalIs(local: seq<Candidate>, files: set<string>) returns (i: nat)
    ensures i <= |local| && NoneBefore(local, files, i)
    ensures if i < |local| then local[i].At? && local[i].location in files &&
      FirstLocal(local, files) == Some(local[i].location)
            else FirstLocal(local, files) == None
  {
    i := 0;
    if local != [] && !(local[0].At? && local[0].location in files) {
      var k := FirstLocalIs(local[1..], files);
      i := k + 1;
      forall j | 0 <= j < i && local[j].At?
        ensures local[j].location !in files
      {
        if j > 0 {
          assert local[1..][j - 1] == local[j];
        }
      }
    }
  }

  /** A process that looks returns the first local file; without one, a cached file that is not empty; and
      only without both goes on to the network. It changes no file. */
  lemma LookingPrefersWhatIsThere(w: World, s: State, p: nat) returns (i: nat)
    requires Enabled(w, s, p, Look)
    ensures
      var after, job := After(w, s, p, Look), w.jobs[p];
      && after.cache == s.cache && after.temps == s.temps
      && i <= |job.local| && NoneBefore(job.local, w.files, i)
      && (i < |job.local| ==>
            job.local[i].At? && job.local[i].location in w.files &&
            after.pcs[p] == Returned(Local(job.local[i].location)))
      && (i == |job.local| ==>
            if job.artifact in s.cache && s.cache[job.artifact].bytes > 0 then after.pcs[p] == Returned(Cached)
            else after.pcs[p] == Trying(0))
  {
    i := FirstLocalIs(w.jobs[p].local, w.files);
  }

  /** The candidate a process is at. */
  predicate Busy(pc: Pc) { pc.Trying? || Names(pc) }

  /** At some point of the run the process skipped candidate i, which is not set, or gave its download up. */
  ghost predicate Attempted(w: World, s: State, steps: seq<Step>, p: nat, i: nat)
    requires p < |w.jobs|
  {
    exists n: nat :: GivesUpAt(w, s, steps, n, p, i)
  }

  ghost predicate GivesUpAt(w: World, s: State, steps: seq<Step>, n: nat, p: nat, i: nat)
    requires p < |w.jobs|
  {
    && n <= |steps| && IsRun(w, s, steps[..n]) && p < |End(w, s, steps[..n]).pcs| && i < |w.jobs[p].urls|
    && var pc := End(w, s, steps[..n]).pcs[p];
       (w.jobs[p].urls[i].Unset? && pc == Trying(i)) || (w.jobs[p].urls[i].At? && pc.Removing? && pc.next == i)
  }

  lemma AttemptedStays(w: World, s: State, steps: seq<Step>, m: nat, p: nat, i: nat)
    requires p < |w.jobs| && m <= |steps| && Attempted(w, s, steps[..m], p, i)
    ensures Attempted(w, s, steps, p, i)
  {
    var n: nat :| GivesUpAt(w, s, steps[..m], n, p, i);
    assert steps[..m][..n] == steps[..n];
    assert GivesUpAt(w, s, steps, n, p, i);
  }

  ghost predicate TriedBefore(w: World, s: State, steps: seq<Step>, p: nat, k: nat)
    requires p < |w.jobs|
  {
    forall i: nat :: i < k ==> Attempted(w, s, steps, p, i)
  }

  ghost predicate InTurn(w: World, s: State, steps: seq<Step>, p: nat)
    requires IsRun(w, s, steps) && p < |w.jobs| == |End(w, s, steps).pcs|
  {
    var pc := End(w, s, steps).pcs[p];
    && (Busy(pc) ==> pc.next <= |w.jobs[p].urls| && TriedBefore(w, s, steps, p, pc.next))
    && (Names(pc) ==> pc.next < |w.jobs[p].urls| && w.jobs[p].urls[pc.next].At?)
    && (pc.Raised? ==> TriedBefore(w, s, steps, p, |w.jobs[p].urls|))
  }

  lemma TriedStays(w: World, s: State, steps: seq<Step>, p: nat, k: nat)
    requires steps != [] && p < |w.jobs| && TriedBefore(w, s, steps[..|steps| - 1], p, k)
    ensures TriedBefore(w, s, steps, p, k)
  {
    forall i: nat | i < k
      ensures Attempted(w, s, steps, p, i)
    {
      AttemptedStays(w, s, steps, |steps| - 1, p, i);
    }
  }

  /** Candidates are tried in their order, none is passed over, and a process ends with an error only after
      it has tried them all. */
  lemma {:induction false} CandidatesInTurn(w: World, s: State, steps: seq<Step>, p: nat)
    requires Initial(w, s) && IsRun(w, s, steps) && p < |w.jobs|
    ensures |End(w, s, steps).pcs| == |w.jobs| && InTurn(w, s, steps, p)
    decreases |steps|
  {
    hide After, Enabled, TriedBefore;
    if steps != [] {
      var m := |steps| - 1;
      var before := End(w, s, steps[..m]);
      CandidatesInTurn(w, s, steps[..m], p);
      StepMovesOn(w, before, steps[m].process, steps[m].action, p);
      var pc := before.pcs[p];
      if Busy(pc) {
        TriedStays(w, s, steps, p, pc.next);
        if GivesUp(w, pc, p) {
          assert GivesUpAt(w, s, steps, m, p, pc.next);
          OneMoreTried(w, s, steps, p, pc.next);
        }
      } else if pc.Raised? {
        TriedStays(w, s, steps, p, |w.jobs[p].urls|);
      }
      if End(w, s, steps).pcs[p] == Trying(0) {
        NoneTried(w, s, steps, p);
      }
    }
  }

  lemma NoneTried(w: World, s: State, steps: seq<Step>, p: nat)
    requires p < |w.jobs|
    ensures TriedBefore(w, s, steps, p, 0)
  {
  }

  lemma OneMoreTried(w: World, s: State, steps: seq<Step>, p: nat, k: nat)
    requires p < |w.jobs| && TriedBefore(w, s, steps, p, k) && Attempted(w, s, steps, p, k)
    ensures TriedBefore(w, s, steps, p, k + 1)
  {
  }

  /** The process is through with its candidate. */
  predicate GivesUp(w: World, pc: Pc, p: nat)
    requires p < |w.jobs|
  {
    Busy(pc) && pc.next < |w.jobs[p].urls| &&
    ((w.jobs[p].urls[pc.next].Unset? && pc.Trying?) || (w.jobs[p].urls[pc.next].At? && pc.Removing?))
  }

  lemma StepMovesOn(w: World, s: State, q: nat, a: Action, p: nat)
    requires Enabled(w, s, q, a) && p < |s.pcs| == |w.jobs|
    requires Busy(s.pcs[p]) ==> s.pcs[p].next <= |w.jobs[p].urls|
    requires Names(s.pcs[p]) ==> s.pcs[p].next < |w.jobs[p].urls| && w.jobs[p].urls[s.pcs[p].next].At?
    ensures
      var was, now, urls := s.pcs[p], After(w, s, q, a).pcs[p], w.jobs[p].urls;
      && (Busy(now) ==>
            || now == Trying(0)
            || (Busy(was) && (now.next == was.next || (now.next == was.next + 1 && GivesUp(w, was, p)))))
      && (Busy(now) ==> now.next <= |urls|)
      && (Names(now) ==> now.next < |urls| && urls[now.next].At?)
      && (now.Raised? ==> now == was || (was == Trying(|urls|)))
  {
    hide FirstLocal;
  }

  // ---- Progress ----

  /** A process that has not ended can always go on by itself: the step it has left depends on where it is,
      and never on another process. */
  lemma NeverStuck(w: World, s: State, p: nat) returns (a: Action)
    requires OwnTemps(w, s) && p < |s.pcs| && Running(s.pcs[p])
    ensures Enabled(w, s, p, a) && !a.Kill?
    ensures s.pcs[p].Trying? && s.pcs[p].next >= |w.jobs[p].urls| ==> After(w, s, p, a).pcs[p].Raised?
  {
    assert TempIs(w, s, p);
    var pc, urls := s.pcs[p], w.jobs[p].urls;
    match pc
    case Start => a := Look;
    case Trying(i) =>
      if i >= |urls| {
        a := GiveUp;
      } else if urls[i].Unset? {
        a := Skip;
      } else {
        var t := LargerThanAll(s.used);
        a := Create(t, 0);
      }
    case Fetching(_, _) => a := CurlFails;
    case Fetched(_, _) => a := Examine;
    case Removing(_, _) => a := Remove;
    case Published(_, _) => a := Remove;
  }

  // ---- Temporary names that recur ----

  lemma Extend(w: World, s: State, steps: seq<Step>, p: nat, a: Action)
    requires IsRun(w, s, steps) && Enabled(w, End(w, s, steps), p, a)
    ensures IsRun(w, s, steps + [Step(p, a)]) && End(w, s, steps + [Step(p, a)]) == After(w, End(w, s, steps), p, a)
  {
    assert (steps + [Step(p, a)])[..|steps|] == steps;
  }

  /** Two processes that download one artifact from one address. */
  function TwoJobs(): World {
    var job := Job("a", [], [At("u")]);
    World([job, job], {}, true)
  }

  lemma {:induction false} Replay(w: World, s: State, steps: seq<Step>, states: seq<State>)
    requires |states| == |steps| + 1 && states[0] == s
    requires forall i :: 0 <= i < |steps| ==>
      Enabled(w, states[i], steps[i].process, steps[i].action) &&
      After(w, states[i], steps[i].process, steps[i].action) == states[i + 1]
    ensures IsRun(w, s, steps) && End(w, s, steps) == states[|steps|]
  {
    hide Enabled, After;
    if steps != [] {
      var n := |steps| - 1;
      Replay(w, s, steps[..n], states[..|steps|]);
    }
  }

  /** Both look before the first one publishes; the second then draws the name just freed. */
  function RaceStep(k: nat): Step {
    if k == 0 then Step(0, Look)
    else if k == 1 then Step(1, Look)
    else if k == 2 then Step(0, Create(7, 1))
    else if k == 3 then Step(0, Receive(1))
    else if k == 4 then Step(0, CurlSucceeds)
    else if k == 5 then Step(0, Examine)
    else if k == 6 then Step(1, Create(7, 1))
    else Step(0, Remove)
  }

  function RaceState(k: nat): State {
    var none, full := Data("u", 1, 0), Data("u", 1, 1);
    if k == 0 then State(map[], map[], {}, [Start, Start])
    else if k == 1 then State(map[], map[], {}, [Trying(0), Start])
    else if k == 2 then State(map[], map[], {}, [Trying(0), Trying(0)])
    else if k == 3 then State(map[], map[7 := none], {7}, [Fetching(0, 7), Trying(0)])
    else if k == 4 then State(map[], map[7 := full], {7}, [Fetching(0, 7), Trying(0)])
    else if k == 5 then State(map[], map[7 := full], {7}, [Fetched(0, 7), Trying(0)])
    else if k == 6 then State(map["a" := full], map[], {7}, [Published(0, 7), Trying(0)])
    else if k == 7 then State(map["a" := full], map[7 := none], {7}, [Published(0, 7), Fetching(0, 7)])
    else State(map["a" := full], map[], {7}, [Returned(Https("u")), Fetching(0, 7)])
  }

  lemma RaceOpens(k: nat)
    requires k < 4
    ensures Enabled(TwoJobs(), RaceState(k), RaceStep(k).process, RaceStep(k).action)
    ensures After(TwoJobs(), RaceState(k), RaceStep(k).process, RaceStep(k).action) == RaceState(k + 1)
  {
  }

  lemma RaceCloses(k: nat)
    requires 4 <= k < 8
    ensures Enabled(TwoJobs(), RaceState(k), RaceStep(k).process, RaceStep(k).action)
    ensures After(TwoJobs(), RaceState(k), RaceStep(k).process, RaceStep(k).action) == RaceState(k + 1)
  {
  }

  /** If a freed name may be handed out again, a finished download's cleanup can remove the file
      another process has just created under that name. */
  lemma RecurringNameLosesAFile() returns (s: State, steps: seq<Step>)
    ensures Initial(TwoJobs(), s) && IsRun(TwoJobs(), s, steps)
    ensures
      var end := End(TwoJobs(), s, steps);
      |end.pcs| == 2 && end.pcs[1] == Fetching(0, 7) && 7 !in end.temps
  {
    hide Enabled, After;
    s := RaceState(0);
    steps := seq(8, (k: nat) => RaceStep(k));
    var states := seq(9, (k: nat) => RaceState(k));
    forall k | 0 <= k < 8
      ensures Enabled(TwoJobs(), states[k], steps[k].process, steps[k].action)
      ensures After(TwoJobs(), states[k], steps[k].process, steps[k].action) == states[k + 1]
    {
      if k < 4 {
        RaceOpens(k);
      } else {
        RaceCloses(k);
      }
    }
    Replay(TwoJobs(), s, steps, states);
  }
}
