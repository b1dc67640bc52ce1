/**
  * The life of containers as a state machine: what is on disk, what one session holds in
  * memory, and every atomic action of the boot sequence, the serializer thread, the garbage
  * collector thread, the object requests and the container destructors, with engine
  * failures and crashes between any two of them.
  *
  * Partitions 0..k-1 hold data; partition k is the metadata partition.
  */
module Lifecycle {
  import opened Types

  // ---------------------------------------------------------------- disk

  /** The column families of each partition and their numbers. A database nobody has opened has none. */
  type Families = seq<map<Name, int>>

  /** `records` are the keys of the metadata container, `next` is an unused family number. */
  datatype Disk = Disk(cfs: Families, records: set<Name>, next: int)

  /** The handle the engine of partition i opens for family n. */
  function Handle(cfs: Families, i: nat, n: Name): Ref
    requires i < |cfs| && n in cfs[i]
  {
    Ref(i, n, cfs[i][n])
  }

  predicate OnDisk(cfs: Families, r: Ref) {
    r.part < |cfs| && r.name in cfs[r.part] && cfs[r.part][r.name] == r.cf
  }

  function AddFamily(d: Disk, i: nat, n: Name): Disk
    requires i < |d.cfs|
  {
    d.(cfs := d.cfs[i := d.cfs[i][n := d.next]], next := d.next + 1)
  }

  /** Dropping the family that holds the records loses them. */
  function DropFamily(d: Disk, r: Ref): Disk
    requires OnDisk(d.cfs, r)
  {
    d.(cfs := d.cfs[r.part := d.cfs[r.part] - {r.name}],
       records := if r.part + 1 == |d.cfs| && r.name == MetadataContainers then {} else d.records)
  }

  // ---------------------------------------------------------------- session

  /** Identity of a container object: its name, and which object of that name it is. */
  datatype Cid = Cid(name: Name, gen: nat)

  /** A container object that has not been freed; `closed` instances have been through its destructor. */
  datatype Obj = Obj(instances: seq<Instance>, deleted: bool, closed: nat)

  datatype ContainerOp = Create | Remove

  /** Where the serializer thread is. */
  datatype Serializer =
    | SerIdle
    | Creating(name: Name, refs: seq<Ref>)
    | Approving(name: Name, refs: seq<Ref>, next: nat)
    | CheckingIndex(name: Name, refs: seq<Ref>)
    | Inserting(name: Name, refs: seq<Ref>)
    | CountingUp(name: Name)
    | Removing(name: Name)
    | LookingUp(name: Name)
    | Marking(name: Name, cid: Cid)
    | Replying(op: ContainerOp, name: Name, status: Status)

  /** Where the garbage collector is with the containers of one bucket snapshot. */
  datatype Phase =
    | Inspect
    | Dropping(cid: Cid, next: nat)
    | CheckingEntry(cid: Cid)
    | Erasing(cid: Cid)
    | CountingDown

  datatype Collector = GcIdle | Sweeping(snap: set<Cid>, todo: seq<Cid>, phase: Phase)

  /** An object request or task that holds a container. */
  datatype Stage = LookedUp | Queued(part: nat) | InEngine(part: nat) | Answered(ok: bool)
  datatype Hold = Hold(cid: Cid, stage: Stage)

  /** `open` are the handles not destroyed, `pending` the validated creates not yet started. Two
      components only record the run: `leaked` are the handles whose destruction failed and
      `owner` says into which object a handle went. */
  datatype Session = Session(
    index: map<Name, Cid>,
    objs: map<Cid, Obj>,
    approved: seq<set<Ref>>,
    open: set<Ref>,
    leaked: set<Ref>,
    owner: map<Ref, Cid>,
    holds: map<nat, Hold>,
    ser: Serializer,
    gc: Collector,
    gens: nat,
    count: int,
    pending: multiset<Name>)

  /** Whether some shared reference keeps the object alive. */
  ghost predicate Held(s: Session, c: Cid) {
    || (c.name in s.index && s.index[c.name] == c)
    || (s.gc.Sweeping? && c in s.gc.snap)
    || (s.ser.Marking? && s.ser.cid == c)
    || exists t :: t in s.holds && s.holds[t].cid == c
  }

  /** The metadata handle as the index gives it. */
  predicate HasMetadataRef(s: Session) {
    && MetadataContainers in s.index
    && s.index[MetadataContainers] in s.objs
    && |s.objs[s.index[MetadataContainers]].instances| > 0
  }

  function MetadataRef(s: Session): Option<Ref>
    requires HasMetadataRef(s)
  {
    s.objs[s.index[MetadataContainers]].instances[0].ref
  }

  /** The fence of an engine: a null or unapproved handle is turned away. */
  predicate Fence(s: Session, i: nat, r: Option<Ref>) {
    r.Some? && i < |s.approved| && r.value in s.approved[i]
  }

  // ---------------------------------------------------------------- boot

  datatype BootPc = Opening(done: nat) | CreatingMetadata | SeedingMetadata | Loading
  datatype Mode = Down | Booting(pc: BootPc) | Up(s: Session)
  datatype World = World(k: nat, disk: Disk, mode: Mode)

  /** Names with a family on some data partition. */
  function DataNames(k: nat, cfs: Families): (ns: set<Name>)
    requires |cfs| == k + 1
    ensures forall n :: n in ns <==> exists i :: 0 <= i < k && n in cfs[i]
  {
    set i, n | 0 <= i < k && n in cfs[i] :: n
  }

  predicate OnEvery(k: nat, cfs: Families, n: Name)
    requires |cfs| == k + 1
  {
    forall i | 0 <= i < k :: n in cfs[i]
  }

  /** The slots boot gives a name: a handle where the family exists, null elsewhere. */
  function Slots(k: nat, cfs: Families, n: Name): (slots: seq<Instance>)
    requires |cfs| == k + 1
    ensures |slots| == k
    ensures forall i | 0 <= i < k ::
      slots[i].part == i && slots[i].ref == if n in cfs[i] then Some(Handle(cfs, i, n)) else None
  {
    seq(k, i requires 0 <= i < k => Instance(i, if n in cfs[i] then Some(Handle(cfs, i, n)) else None))
  }

  /** What the loader insists on before it lets the store start. */
  ghost predicate Loadable(k: nat, d: Disk) {
    && |d.cfs| == k + 1
    && 0 < |d.cfs[k]| <= 2
    && MetadataContainers in d.cfs[k]
    && (forall n | n in d.records :: OnEvery(k, d.cfs, n) && 0 < k)
    && (forall n | n in d.cfs[k] :: !(IndexedAs(n) in DataNames(k, d.cfs)))
    && (forall m, n | m in d.cfs[k] && n in d.cfs[k] && m != n :: IndexedAs(m) != IndexedAs(n))
  }

  /** The index-level name of a family of the metadata partition. */
  function IndexedAs(n: Name): Name {
    if n == Default then MetadataDefault else n
  }

  function MetadataContainer(k: nat, d: Disk, n: Name): Container
    requires |d.cfs| == k + 1 && n in d.cfs[k]
  {
    Container(IndexedAs(n), [Instance(k, Some(Handle(d.cfs, k, n)))], false)
  }

  /** The containers a boot indexes: the metadata partition's, and every name found on a data
      partition, soft-deleted unless the metadata has a record of it. */
  function LoadedContainers(k: nat, d: Disk): map<Name, Container>
    requires |d.cfs| == k + 1
  {
    (map n | n in DataNames(k, d.cfs) :: Container(n, Slots(k, d.cfs, n), n !in d.records)) +
    (map n | n in (set m | m in d.cfs[k] :: IndexedAs(m)) :: MetadataContainer(k, d, FamilyOf(k, d, n)))
  }

  function FamilyOf(k: nat, d: Disk, n: Name): (m: Name)
    requires |d.cfs| == k + 1 && exists m | m in d.cfs[k] :: IndexedAs(m) == n
    ensures m in d.cfs[k] && IndexedAs(m) == n
  {
    if n == MetadataDefault && Default in d.cfs[k] then Default else n
  }

  /** One container object for every loaded container, the first of its name. */
  function LoadedObjs(l: map<Name, Container>): map<Cid, Obj> {
    map c | c in (set n | n in l :: Cid(n, 0)) :: Obj(l[c.name].instances, l[c.name].deleted, 0)
  }

  /** The handles an engine returns when its database is opened: all of them are approved. */
  function OpenHandles(d: Disk, i: nat): set<Ref>
    requires i < |d.cfs|
  {
    set n | n in d.cfs[i] :: Handle(d.cfs, i, n)
  }

  function Approvals(k: nat, d: Disk): seq<set<Ref>>
    requires |d.cfs| == k + 1
  {
    seq(k + 1, i requires 0 <= i <= k => OpenHandles(d, i))
  }

  function AllHandles(d: Disk): set<Ref> {
    set i, n | 0 <= i < |d.cfs| && n in d.cfs[i] :: Handle(d.cfs, i, n)
  }

  function LoadedOwners(k: nat, d: Disk): map<Ref, Cid> {
    map r | r in AllHandles(d) :: Cid(if r.part == k then IndexedAs(r.name) else r.name, 0)
  }

  /** The session that starts with the given containers. */
  function SessionOf(k: nat, d: Disk, l: map<Name, Container>): Session
    requires |d.cfs| == k + 1
  {
    Session(
      map n | n in l :: Cid(n, 0), LoadedObjs(l), Approvals(k, d), AllHandles(d),
      {}, LoadedOwners(k, d), map[], SerIdle, GcIdle, 1, |l|, multiset{})
  }

  function FirstSession(k: nat, d: Disk): Session
    requires |d.cfs| == k + 1
  {
    SessionOf(k, d, LoadedContainers(k, d))
  }

  // ---------------------------------------------------------------- actions

  /** The booleans say whether the engine call of the step succeeds. */
  datatype Action =
    | Crash
    | StartBoot
    | OpenPartition(ok: bool)
    | CreateMetadata(ok: bool)
    | SeedMetadata(ok: bool)
    | LoadIndex(ok: bool)
    // requests validated outside the serializer
    | ValidateCreate(name: Name, max: nat)
    // serializer
    | BeginCreate(name: Name)
    | CreateFamily(ok: bool)
    | PutRecord(ok: bool)
    | Approve
    | CheckIndex
    | InsertEntry
    | CountUp
    | BeginRemove(name: Name)
    | DeleteRecord(ok: bool)
    | LookUp
    | MarkDeleted
    | Reply
    // garbage collector
    | Snapshot(todo: seq<Cid>)
    | InspectNext
    | DropInstance(ok: bool)
    | CheckEntry
    | EraseEntry
    | CountDown
    | EndSweep
    // object requests
    | Acquire(task: nat, name: Name)
    | Route(task: nat, part: nat)
    | PassFence(task: nat)
    | CallEngine(task: nat, ok: bool)
    | Release(task: nat)
    // destructors
    | CloseNext(cid: Cid, ok: bool)
    | Free(cid: Cid)

  predicate BootAction(a: Action) {
    a.StartBoot? || a.OpenPartition? || a.CreateMetadata? || a.SeedMetadata? || a.LoadIndex?
  }

  ghost predicate EnabledBoot(w: World, a: Action)
    requires BootAction(a)
  {
    match a
    case StartBoot => w.mode.Down?
    case OpenPartition(_) => w.mode.Booting? && w.mode.pc.Opening? && w.mode.pc.done <= w.k < |w.disk.cfs|
    case CreateMetadata(_) => w.mode == Booting(CreatingMetadata) && w.k < |w.disk.cfs|
    case SeedMetadata(_) => w.mode == Booting(SeedingMetadata)
    case LoadIndex(_) => w.mode == Booting(Loading)
  }

  /** The metadata partition boots first, then the data partitions in order. */
  function BootOrder(k: nat, done: nat): nat {
    if done == 0 then k else done - 1
  }

  /** Opening a database that does not exist creates it with the default family. */
  function OpenedDisk(d: Disk, i: nat): Disk
    requires i < |d.cfs|
  {
    if d.cfs[i] == map[] then AddFamily(d, i, Default) else d
  }

  ghost function StepBoot(w: World, a: Action): World
    requires BootAction(a) && EnabledBoot(w, a)
  {
    match a
    case StartBoot => w.(mode := Booting(Opening(0)))
    case OpenPartition(ok) =>
      if !ok then w.(mode := Down)
      else
        var d := OpenedDisk(w.disk, BootOrder(w.k, w.mode.pc.done));
        w.(disk := d, mode := Booting(
          if w.mode.pc.done < w.k then Opening(w.mode.pc.done + 1)
          else if |d.cfs[w.k]| == 1 then CreatingMetadata
          else Loading))
    case CreateMetadata(ok) =>
      if !ok || MetadataContainers in w.disk.cfs[w.k] then w.(mode := Down)
      else w.(disk := AddFamily(w.disk, w.k, MetadataContainers), mode := Booting(SeedingMetadata))
    case SeedMetadata(ok) =>
      if !ok then w.(mode := Down)
      else w.(disk := w.disk.(records := w.disk.records + {Default}), mode := Booting(Loading))
    case LoadIndex(ok) =>
      if ok && Loadable(w.k, w.disk) then w.(mode := Up(FirstSession(w.k, w.disk))) else w.(mode := Down)
  }

  /** Outstanding validated creates: waiting, or at the serializer and not counted yet. */
  function Outstanding(s: Session): nat {
    |s.pending|
      + if s.ser.Creating? || s.ser.Approving? || s.ser.CheckingIndex? || s.ser.Inserting? || s.ser.CountingUp? then 1
        else 0
  }

  /** On its way to an entry, and from a record to a marked container. */
  predicate AtCreation(ser: Serializer) {
    ser.Creating? || ser.Approving? || ser.CheckingIndex? || ser.Inserting?
  }

  predicate AtRemoval(ser: Serializer) {
    ser.Removing? || ser.LookingUp? || ser.Marking?
  }

  predicate SerializerAction(a: Action) {
    || a.BeginCreate? || a.CreateFamily? || a.PutRecord? || a.Approve? || a.CheckIndex? || a.InsertEntry? || a.CountUp?
    || a.BeginRemove? || a.DeleteRecord? || a.LookUp? || a.MarkDeleted? || a.Reply?
  }

  predicate EnabledSerializer(k: nat, s: Session, a: Action)
    requires SerializerAction(a)
  {
    match a
    case BeginCreate(n) => s.ser.SerIdle? && n in s.pending && (n in s.index ==> s.index[n] in s.objs)
    case CreateFamily(_) => s.ser.Creating? && |s.ser.refs| < k
    case PutRecord(_) => s.ser.Creating? && |s.ser.refs| == k && HasMetadataRef(s)
    case Approve => s.ser.Approving? && s.ser.next <= |s.ser.refs| && |s.ser.refs| <= |s.approved|
    case CheckIndex => s.ser.CheckingIndex?
    case InsertEntry => s.ser.Inserting?
    case CountUp => s.ser.CountingUp?
    case BeginRemove(n) => s.ser.SerIdle? && (n in s.index ==> s.index[n] in s.objs)
    case DeleteRecord(_) => s.ser.Removing? && HasMetadataRef(s)
    case LookUp => s.ser.LookingUp?
    case MarkDeleted => s.ser.Marking? && s.ser.cid in s.objs
    case Reply => s.ser.Replying?
  }

  /** The index's answer for a name: absent, live or waiting for the collector. */
  function ExistenceStatus(s: Session, n: Name): Status
    requires n in s.index ==> s.index[n] in s.objs
  {
    if n !in s.index then ContainerNotExists
    else if s.objs[s.index[n]].deleted then ContainerInDeletionProcess
    else ContainerAlreadyExists
  }

  function SlotsOfRefs(refs: seq<Ref>): (slots: seq<Instance>)
    ensures |slots| == |refs| && forall i | 0 <= i < |refs| :: slots[i] == Instance(i, Some(refs[i]))
  {
    seq(|refs|, i requires 0 <= i < |refs| => Instance(i, Some(refs[i])))
  }

  /** A write to the metadata container goes through its fence and then to its family. */
  function MetadataWriteStatus(k: nat, d: Disk, s: Session, ok: bool, failure: Status): Status
    requires HasMetadataRef(s)
  {
    var r := MetadataRef(s);
    if !Fence(s, k, r) then StorageEngineReferenceNotApproved
    else if !ok || !OnDisk(d.cfs, r.value) then failure
    else Success
  }

  function Answer(s: Session, op: ContainerOp, n: Name, st: Status): Session {
    s.(ser := Replying(op, n, st))
  }

  function BeginCreation(s: Session, n: Name): Session
    requires n in s.index ==> s.index[n] in s.objs
  {
    var st := ExistenceStatus(s, n);
    s.(pending := s.pending - multiset{n},
       ser := if st == ContainerNotExists then Creating(n, []) else Replying(Create, n, st))
  }

  /** The next partition's engine has made the family and returned its handle. */
  function TakeHandle(s: Session, r: Ref): Session
    requires s.ser.Creating?
  {
    s.(ser := Creating(s.ser.name, s.ser.refs + [r]), open := s.open + {r})
  }

  function ApproveNext(s: Session): Session
    requires s.ser.Approving? && s.ser.next <= |s.ser.refs| && |s.ser.refs| <= |s.approved|
  {
    var i := s.ser.next;
    if i == |s.ser.refs| then s.(ser := CheckingIndex(s.ser.name, s.ser.refs))
    else s.(approved := s.approved[i := s.approved[i] + {s.ser.refs[i]}], ser := s.ser.(next := i + 1))
  }

  function InsertNew(s: Session): Session
    requires s.ser.Inserting?
  {
    var c := Cid(s.ser.name, s.gens);
    s.(index := s.index[s.ser.name := c], objs := s.objs[c := Obj(SlotsOfRefs(s.ser.refs), false, 0)],
       owner := s.owner + (map r | r in s.ser.refs :: c), gens := s.gens + 1, ser := CountingUp(s.ser.name))
  }

  function MarkObject(s: Session): Session
    requires s.ser.Marking? && s.ser.cid in s.objs
  {
    s.(objs := s.objs[s.ser.cid := s.objs[s.ser.cid].(deleted := true)], ser := Replying(Remove, s.ser.name, Success))
  }

  function StepSerializer(k: nat, d: Disk, s: Session, a: Action): (r: (Disk, Session))
    requires SerializerAction(a) && EnabledSerializer(k, s, a) && |d.cfs| == k + 1
    ensures r.1.gc == s.gc && r.1.holds == s.holds && r.1.leaked == s.leaked && s.open <= r.1.open
    ensures !a.InsertEntry? ==> r.1.index == s.index
    ensures |r.0.cfs| == k + 1
    ensures || r.0.records == d.records
            || (s.ser.Creating? && r.0.records == d.records + {s.ser.name})
            || (s.ser.Removing? && r.0.records == d.records - {s.ser.name})
  {
    match a
    case BeginCreate(n) => (d, BeginCreation(s, n))
    case CreateFamily(ok) =>
      var i := |s.ser.refs|;
      if !ok || s.ser.name in d.cfs[i] then (d, Answer(s, Create, s.ser.name, ContainerCreationFailed))
      else (AddFamily(d, i, s.ser.name), TakeHandle(s, Ref(i, s.ser.name, d.next)))
    case PutRecord(ok) =>
      var st := MetadataWriteStatus(k, d, s, ok, ObjectInsertionFailed);
      if st != Success then (d, Answer(s, Create, s.ser.name, st))
      else (d.(records := d.records + {s.ser.name}), s.(ser := Approving(s.ser.name, s.ser.refs, 0)))
    case Approve => (d, ApproveNext(s))
    case CheckIndex =>
      (d, if s.ser.name in s.index then Answer(s, Create, s.ser.name, ContainerInsertionCollision)
          else s.(ser := Inserting(s.ser.name, s.ser.refs)))
    case InsertEntry => (d, InsertNew(s))
    case CountUp => (d, Answer(s.(count := s.count + 1), Create, s.ser.name, Success))
    case BeginRemove(n) =>
      (d, if ExistenceStatus(s, n) == ContainerAlreadyExists then s.(ser := Removing(n))
          else Answer(s, Remove, n, ContainerNotExists))
    case DeleteRecord(ok) =>
      var st := MetadataWriteStatus(k, d, s, ok, ObjectDeletionFailed);
      if st != Success then (d, Answer(s, Remove, s.ser.name, st))
      else (d.(records := d.records - {s.ser.name}), s.(ser := LookingUp(s.ser.name)))
    case LookUp =>
      (d, if s.ser.name in s.index then s.(ser := Marking(s.ser.name, s.index[s.ser.name]))
          else Answer(s, Remove, s.ser.name, ContainerNotExists))
    case MarkDeleted => (d, MarkObject(s))
    case Reply => (d, s.(ser := SerIdle))
  }

  predicate CollectorAction(a: Action) {
    a.Snapshot? || a.InspectNext? || a.DropInstance? || a.CheckEntry? || a.EraseEntry? || a.CountDown? || a.EndSweep?
  }

  /** A bucket snapshot lists indexed containers, each once. */
  predicate EnabledCollector(k: nat, s: Session, a: Action)
    requires CollectorAction(a)
  {
    match a
    case Snapshot(todo) =>
      && s.gc.GcIdle?
      && (forall c | c in todo :: c.name in s.index && s.index[c.name] == c)
      && (forall i, j | 0 <= i < j < |todo| :: todo[i] != todo[j])
    case InspectNext => s.gc.Sweeping? && s.gc.phase.Inspect? && s.gc.todo != [] && s.gc.todo[0] in s.objs
    case DropInstance(_) =>
      && s.gc.Sweeping? && s.gc.phase.Dropping? && s.gc.phase.cid in s.objs
      && s.gc.phase.next <= |s.objs[s.gc.phase.cid].instances|
    case CheckEntry => s.gc.Sweeping? && s.gc.phase.CheckingEntry?
    case EraseEntry => s.gc.Sweeping? && s.gc.phase.Erasing?
    case CountDown => s.gc.Sweeping? && s.gc.phase.CountingDown?
    case EndSweep => s.gc.Sweeping? && s.gc.phase.Inspect? && s.gc.todo == []
  }

  /** What dropping one instance answers: the fence, then the engine, which never drops the
      default family nor one that is already gone. */
  function DropStatus(d: Disk, s: Session, inst: Instance, ok: bool): Status {
    if !Fence(s, inst.part, inst.ref) then StorageEngineReferenceNotApproved
    else if ok && OnDisk(d.cfs, inst.ref.value) && inst.ref.value.name != Default then Success
    else ContainerStorageEngineDeletionFailed
  }

  function InspectHead(s: Session): Session
    requires s.gc.Sweeping? && s.gc.todo != [] && s.gc.todo[0] in s.objs
  {
    var c := s.gc.todo[0];
    s.(gc := s.gc.(todo := s.gc.todo[1..], phase := if s.objs[c].deleted then Dropping(c, 0) else Inspect))
  }

  function EnterPhase(s: Session, ph: Phase): Session
    requires s.gc.Sweeping?
  {
    s.(gc := s.gc.(phase := ph))
  }

  /** The collector takes the entry out by its name, whichever object it holds. */
  function EraseByName(s: Session): Session
    requires s.gc.Sweeping? && s.gc.phase.Erasing?
  {
    EnterPhase(s.(index := s.index - {s.gc.phase.cid.name}), CountingDown)
  }

  function StepCollector(k: nat, d: Disk, s: Session, a: Action): (r: (Disk, Session))
    requires CollectorAction(a) && EnabledCollector(k, s, a) && |d.cfs| == k + 1
    ensures r.1.ser == s.ser && r.1.objs == s.objs && r.1.approved == s.approved && r.1.open == s.open
    ensures r.1.holds == s.holds
    ensures r.1.pending == s.pending && r.1.count <= s.count
    ensures !a.DropInstance? ==> r.0 == d
    ensures !a.EraseEntry? ==> r.1.index == s.index
    ensures |r.0.cfs| == k + 1
  {
    match a
    case Snapshot(todo) => (d, s.(gc := Sweeping((set c | c in todo), todo, Inspect)))
    case InspectNext => (d, InspectHead(s))
    case DropInstance(ok) =>
      var c, j := s.gc.phase.cid, s.gc.phase.next;
      if j == |s.objs[c].instances| then (d, EnterPhase(s, CheckingEntry(c)))
      else
        var inst := s.objs[c].instances[j];
        if DropStatus(d, s, inst, ok) != Success then (d, EnterPhase(s, Inspect))
        else (DropFamily(d, inst.ref.value), EnterPhase(s, Dropping(c, j + 1)))
    case CheckEntry =>
      (d, EnterPhase(s, if s.gc.phase.cid.name in s.index then Erasing(s.gc.phase.cid) else Inspect))
    case EraseEntry => (d, EraseByName(s))
    case CountDown => (d, EnterPhase(s.(count := s.count - 1), Inspect))
    case EndSweep => (d, s.(gc := GcIdle))
  }

  predicate HolderAction(a: Action) {
    || a.ValidateCreate? || a.Acquire? || a.Route? || a.PassFence? || a.CallEngine? || a.Release?
    || a.CloseNext? || a.Free?
  }

  ghost predicate EnabledHolder(k: nat, s: Session, a: Action)
    requires HolderAction(a)
  {
    match a
    case ValidateCreate(n, max) => n !in s.index && s.count < max
    case Acquire(t, n) => t !in s.holds && n in s.index
    case Route(t, p) => t in s.holds && s.holds[t].stage.LookedUp? && s.holds[t].cid in s.objs && p < k
    case PassFence(t) => t in s.holds && s.holds[t].stage.Queued? && s.holds[t].cid in s.objs
                         && s.holds[t].stage.part < |s.objs[s.holds[t].cid].instances|
    case CallEngine(t, _) => t in s.holds && s.holds[t].stage.InEngine?
    case Release(t) => t in s.holds && !s.holds[t].stage.InEngine?
    case CloseNext(c, _) => c in s.objs && !Held(s, c) && s.objs[c].closed < |s.objs[c].instances|
    case Free(c) => c in s.objs && !Held(s, c) && s.objs[c].closed == |s.objs[c].instances|
  }

  /** Routing a request to a collocation turns away soft-deleted containers. */
  function RouteStage(o: Obj, p: nat): Stage {
    if o.deleted then Answered(false) else Queued(p)
  }

  /** A task passes the fence of its partition's engine before it uses the handle. */
  function FenceStage(s: Session, o: Obj, p: nat): Stage
    requires p < |o.instances|
  {
    if Fence(s, p, o.instances[p].ref) then InEngine(p) else Answered(false)
  }

  /** The destructor closes the next instance: the handle is destroyed and its approval taken back,
      unless it is null or not approved; if destroying it fails, both stay. */
  function CloseInstance(s: Session, c: Cid, ok: bool): Session
    requires c in s.objs && s.objs[c].closed < |s.objs[c].instances|
  {
    var o := s.objs[c];
    var inst := o.instances[o.closed];
    var s' := s.(objs := s.objs[c := o.(closed := o.closed + 1)]);
    if !Fence(s, inst.part, inst.ref) then s'
    else if !ok then s'.(leaked := s.leaked + {inst.ref.value})
    else
      s'.(approved := s.approved[inst.part := s.approved[inst.part] - {inst.ref.value}],
          open := s.open - {inst.ref.value})
  }

  ghost function StepHolder(k: nat, s: Session, a: Action): (s': Session)
    requires HolderAction(a) && EnabledHolder(k, s, a)
    ensures s'.ser == s.ser && s'.gc == s.gc && s'.index == s.index && s'.count == s.count
    ensures !a.CloseNext? ==> s'.open == s.open
    ensures !a.ValidateCreate? ==> s'.pending == s.pending
  {
    match a
    case ValidateCreate(n, _) => s.(pending := s.pending + multiset{n})
    case Acquire(t, n) => s.(holds := s.holds[t := Hold(s.index[n], LookedUp)])
    case Route(t, p) => s.(holds := s.holds[t := Hold(s.holds[t].cid, RouteStage(s.objs[s.holds[t].cid], p))])
    case PassFence(t) =>
      s.(holds := s.holds[t := Hold(s.holds[t].cid, FenceStage(s, s.objs[s.holds[t].cid], s.holds[t].stage.part))])
    case CallEngine(t, ok) => s.(holds := s.holds[t := Hold(s.holds[t].cid, Answered(ok))])
    case Release(t) => s.(holds := s.holds - {t})
    case CloseNext(c, ok) => CloseInstance(s, c, ok)
    case Free(c) => s.(objs := s.objs - {c})
  }

  ghost predicate Enabled(w: World, a: Action) {
    if a.Crash? then true
    else if BootAction(a) then EnabledBoot(w, a)
    else
      && w.mode.Up? && |w.disk.cfs| == w.k + 1
      && if SerializerAction(a) then EnabledSerializer(w.k, w.mode.s, a)
         else if CollectorAction(a) then EnabledCollector(w.k, w.mode.s, a)
         else EnabledHolder(w.k, w.mode.s, a)
  }

  ghost function Step(w: World, a: Action): World
    requires Enabled(w, a)
  {
    if a.Crash? then w.(mode := Down)
    else if BootAction(a) then StepBoot(w, a)
    else if SerializerAction(a) then var (d, s) := StepSerializer(w.k, w.disk, w.mode.s, a); World(w.k, d, Up(s))
    else if CollectorAction(a) then var (d, s) := StepCollector(w.k, w.disk, w.mode.s, a); World(w.k, d, Up(s))
    else w.(mode := Up(StepHolder(w.k, w.mode.s, a)))
  }

  /** A store that has never run. */
  predicate Fresh(w: World) {
    w.k > 0 && w.mode.Down? && w.disk == Disk(seq(w.k + 1, i => map[]), {}, 0)
  }
}
