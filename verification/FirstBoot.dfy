/** The container "default", which only a first boot records: exactly when a store keeps it. */
module FirstBoot {
  import opened Types
  import opened Lifecycle
  import opened Invariant
  import opened Runs
  import D = Durability
  import R = Recovery

  /** The first boot went down between making the records' family and recording "default". */
  ghost predicate LostAt(ws: seq<World>, m: nat) {
    m + 1 < |ws| && ws[m].mode == Booting(SeedingMetadata) && ws[m + 1].mode.Down?
  }

  // ---------------------------------------------------------------- lost once, lost for good

  lemma LosingIsGone(w: World, a: Action)
    requires Inv(w) && Enabled(w, a) && w.mode == Booting(SeedingMetadata) && Step(w, a).mode.Down?
    ensures D.Gone(Step(w, a), Default)
  {
    hide Core, Ownership;
  }

  /** From then on no session has "default" again, not even if clients ask for its creation: its
      families cannot be dropped, so it waits for collection for good. */
  lemma DefaultNeverReturns(ws: seq<World>, acts: seq<Action>, i: nat, j: nat)
    requires Run(ws, acts) && i <= j < |ws| && D.Gone(ws[i], Default)
    ensures Default !in ws[j].disk.records
    ensures ws[j].mode.Up? ==> SoftDeleted(ws[j].mode.s.index, ws[j].mode.s.objs, Default)
  {
    hide Inv, Enabled, Step, Path;
    RunPath(ws, acts, i, j);
    D.GoneOnPath(ws[i], acts[i..j], ws[j], Default);
    InvariantAt(ws, acts, j);
    if ws[j].mode.Up? { D.InSession(ws[j], Default); }
  }

  // ---------------------------------------------------------------- and otherwise kept

  /** Not recorded yet, being recorded, or recorded and live in every session. */
  ghost predicate OnItsWay(w: World) {
    || (|w.disk.cfs| == w.k + 1 && MetadataContainers !in w.disk.cfs[w.k])
    || w.mode == Booting(SeedingMetadata)
    || D.Settled(w, Default)
  }

  lemma OnItsWayStep(w: World, a: Action)
    requires Inv(w) && Clean(a) && Enabled(w, a) && OnItsWay(w) && a != BeginRemove(Default)
    requires !(w.mode == Booting(SeedingMetadata) && Step(w, a).mode.Down?)
    ensures OnItsWay(Step(w, a))
  {
    if D.Settled(w, Default) {
      D.SettledStays(w, a, Default);
    } else if w.mode != Booting(SeedingMetadata) {
      assert !w.mode.Up?;
      StepKeeps(w, a);
    }
  }

  lemma {:induction false} OnItsWayAt(ws: seq<World>, acts: seq<Action>, j: nat)
    requires Run(ws, acts) && j < |ws|
    requires forall m | 0 <= m < j :: acts[m] != BeginRemove(Default) && !LostAt(ws, m)
    ensures OnItsWay(ws[j])
  {
    hide Inv, Enabled, Step;
    if j > 0 {
      OnItsWayAt(ws, acts, j - 1);
      InvariantAt(ws, acts, j - 1);
      assert StepAt(ws, acts, j - 1) && !LostAt(ws, j - 1);
      OnItsWayStep(ws[j - 1], acts[j - 1]);
    }
  }

  /** In every session before any removal of it starts, "default" is live if and only if no boot ever
      went down between making the records' family and recording it. */
  lemma DefaultLiveIff(ws: seq<World>, acts: seq<Action>, j: nat)
    requires Run(ws, acts) && j < |ws| && ws[j].mode.Up?
    requires forall m | 0 <= m < j :: acts[m] != BeginRemove(Default)
    ensures Live(ws[j].mode.s.index, ws[j].mode.s.objs, Default) <==> !exists m: nat :: m < j && LostAt(ws, m)
  {
    hide Enabled, Step, D.Gone, Ownership;
    InvariantAt(ws, acts, j);
    if exists m: nat :: m < j && LostAt(ws, m) {
      hide Good;
      var m: nat :| m < j && LostAt(ws, m);
      InvariantAt(ws, acts, m);
      assert StepAt(ws, acts, m);
      LosingIsGone(ws[m], acts[m]);
      DefaultNeverReturns(ws, acts, m + 1, j);
    } else {
      OnItsWayAt(ws, acts, j);
    }
  }

  // ---------------------------------------------------------------- a run in which it is lost

  /** A store without the records' family, its engine calls succeeding, comes to where it seeds them. */
  lemma {:induction false} ReachesSeeding(w: World) returns (acts: seq<Action>, mid: World)
    requires Inv(w) && !w.mode.Up? && w.mode != Booting(SeedingMetadata) && MetadataContainers !in w.disk.cfs[w.k]
    ensures Path(w, acts, mid) && AllClean(acts) && Inv(mid) && mid.mode == Booting(SeedingMetadata)
    decreases R.BootDistance(w)
  {
    var a := R.NextBoot(w);
    R.BootProgress(w);
    if w.mode == Booting(CreatingMetadata) {
      acts, mid := [], Step(w, a);
    } else {
      acts, mid := ReachesSeeding(Step(w, a));
    }
    PathFirst(w, a, acts, mid);
    acts := [a] + acts;
  }

  lemma LostIsSoftDeleted(w: World)
    requires Inv(w) && w.mode.Up? && D.Gone(w, Default)
    ensures SoftDeleted(w.mode.s.index, w.mode.s.objs, Default)
  {
    hide Inv;
    D.InSession(w, Default);
  }

  lemma FreshIsInv(w: World)
    requires Fresh(w)
    ensures Inv(w) && w.mode.Down? && |w.disk.cfs| == w.k + 1 && MetadataContainers !in w.disk.cfs[w.k]
  {
  }

  /** A store that has never run can be brought, by a crash in that window and one boot that succeeds,
      into a session in which "default" is waiting for collection. */
  lemma DefaultCanBeLost(w: World) returns (ws: seq<World>, acts: seq<Action>)
    requires Fresh(w)
    ensures Run(ws, acts) && ws[0] == w
    ensures var end := ws[|acts|]; end.mode.Up? && SoftDeleted(end.mode.s.index, end.mode.s.objs, Default)
  {
    hide Inv, Path, D.Gone;
    FreshIsInv(w);
    var first, mid := ReachesSeeding(w);
    var down := Step(mid, Crash);
    LosingIsGone(mid, Crash);
    StepKeeps(mid, Crash);
    var again := R.BootPath(down);
    R.BootReachesUp(down);
    D.GoneOnPath(down, again, R.BootToEnd(down), Default);
    LostIsSoftDeleted(R.BootToEnd(down));
    PathThen(w, first, mid, Crash);
    PathJoin(w, first + [Crash], down, again, R.BootToEnd(down));
    acts := first + [Crash] + again;
    ws := RunOf(w, acts, R.BootToEnd(down));
  }
}
