/** The handshake between clients that add temporary roots and the collector that reads
    them (addTempRoot, readTempRoots, the locking of collectGarbage and ~LocalStore), as an
    interleaved step system over any number of processes.  Any process may collect.

    A lock is an advisory record lock on a whole file in the sense of fcntl() in the System
    Interfaces volume of POSIX.1: it belongs to a process, a new request of the same process
    replaces it, and closing any descriptor of the file drops it. */
module TempRoots {
  import opened Graphs
  import opened StoreDb
  import GarbageCollector
  import opened Wrappers

  type Pid = int
  type Inode = int

  datatype LockType = Read | Write
  type Lock = map<Pid, LockType>

  /** A temporary roots file, created by and named after `owner`.  `stale` tells that the
      one-byte token has been written; the file has size 0 iff it is not stale and empty. */
  datatype File = File(owner: Pid, roots: set<Path>, stale: bool)

  datatype Pc =
    | Idle
    // addTempRoot(path)
    | WantGcRead(path: Path) | Unlinking(path: Path) | Opening(path: Path) | ClosingGc(path: Path)
    | WantRead(path: Path) | Checking(path: Path)
    | WantWrite(path: Path) | Writing(path: Path) | Downgrading(path: Path)
    // collectGarbage()
    | WantGcWrite | Listing
    | NextFile(todo: set<Pid>)
    | TryLocking(todo: set<Pid>, name: Pid, inode: Inode)
    | UnlinkStale(todo: set<Pid>, name: Pid, inode: Inode)
    | MarkStale(todo: set<Pid>, name: Pid, inode: Inode)
    | CloseStale(todo: set<Pid>, name: Pid, inode: Inode)
    | WantFreeze(todo: set<Pid>, name: Pid, inode: Inode)
    | ReadFile(todo: set<Pid>, name: Pid, inode: Inode)
    | Sweeping | Unfreezing
    // ~LocalStore()
    | Leaving | Left

  /** A running process: where it is, its fdTempRoots, what addTempRoot() has returned for
      (a history variable), and as a collector the roots it read and the files it keeps open. */
  datatype Proc = Proc(pc: Pc, fd: Option<Inode>, returned: set<Path>, tempRoots: set<Path>, frozen: set<Inode>)

  /** `unlocked` is a history variable: the processes whose own collection has closed a
      descriptor of their own temporary roots file, which drops the lock that protects it. */
  datatype State = State(procs: map<Pid, Proc>, dir: map<Pid, Inode>, files: map<Inode, File>,
                         gcLock: Lock, locks: map<Inode, Lock>, unlocked: set<Pid>)

  datatype Action =
    | Spawn(p: Pid)
    | Exit(p: Pid)
    | Leave(p: Pid)  // an orderly exit begins: the store is closed
    | AddTempRoot(p: Pid, path: Path)
    | Collect(p: Pid)
    | Advance(p: Pid, inode: Inode, name: Pid)  // a step inside a call; a new inode or a directory entry if it needs one

  predicate CanRead(l: Lock, p: Pid) {
    forall q :: q in l && q != p ==> l[q].Read?
  }

  predicate CanWrite(l: Lock, p: Pid) {
    forall q :: q in l ==> q == p
  }

  predicate Enabled(s: State, a: Action) {
    match a
    case Spawn(p) => p !in s.procs
    case Exit(p) => p in s.procs && !s.procs[p].pc.MarkStale?
    case Leave(p) => p in s.procs && s.procs[p].pc.Idle?
    case AddTempRoot(p, _) => p in s.procs && s.procs[p].pc.Idle?
    case Collect(p) => p in s.procs && s.procs[p].pc.Idle?
    case Advance(p, inode, name) =>
      p in s.procs &&
      var q := s.procs[p];
      match q.pc
      case Idle => false
      case Left => false
      case WantGcRead(_) => CanRead(s.gcLock, p)
      case WantGcWrite => CanWrite(s.gcLock, p)
      case Opening(_) => p in s.dir || inode !in s.files
      case WantRead(_) => q.fd.Some? && q.fd.value in s.locks && CanRead(s.locks[q.fd.value], p)
      case WantWrite(_) => q.fd.Some? && q.fd.value in s.locks && CanWrite(s.locks[q.fd.value], p)
      case Checking(_) => q.fd.Some? && q.fd.value in s.files
      case Writing(_) => q.fd.Some? && q.fd.value in s.files
      case Downgrading(_) => q.fd.Some? && q.fd.value in s.locks
      case NextFile(todo) => todo == {} || name in todo
      case TryLocking(_, _, i) => i in s.locks
      case MarkStale(_, _, i) => i in s.files
      case CloseStale(_, _, i) => i in s.locks
      case WantFreeze(_, _, i) => i in s.locks && CanRead(s.locks[i], p)
      case ReadFile(_, _, i) => i in s.files
      case _ => true
  }

  function WithPc(s: State, p: Pid, pc: Pc): State
    requires p in s.procs
  {
    s.(procs := s.procs[p := s.procs[p].(pc := pc)])
  }

  function SetLock(s: State, i: Inode, p: Pid, t: LockType): State
    requires i in s.locks
  {
    s.(locks := s.locks[i := s.locks[i][p := t]])
  }

  function Release(s: State, i: Inode, p: Pid): State {
    if i in s.locks then s.(locks := s.locks[i := s.locks[i] - {p}]) else s
  }

  function Apply(s: State, a: Action): State
    requires Enabled(s, a)
  {
    match a
    case Spawn(p) => s.(procs := s.procs[p := Proc(Idle, None, {}, {}, {})])
    case Exit(p) =>
      s.(procs := s.procs - {p}, gcLock := s.gcLock - {p},
         locks := (map i | i in s.locks :: s.locks[i] - {p}), unlocked := s.unlocked - {p})
    case Leave(p) => CloseStore(s, p)
    case AddTempRoot(p, path) => WithPc(s, p, if s.procs[p].fd.None? then WantGcRead(path) else WantWrite(path))
    case Collect(p) => WithPc(s, p, WantGcWrite)
    case Advance(p, inode, name) =>
      Step(s, p, inode, name)
  }

  // The steps of addTempRoot()

  function AcquireGcRead(s: State, p: Pid): State
    requires p in s.procs && s.procs[p].pc.WantGcRead?
  {
    WithPc(s.(gcLock := s.gcLock[p := Read]), p, Unlinking(s.procs[p].pc.path))
  }

  function UnlinkOld(s: State, p: Pid): State
    requires p in s.procs && s.procs[p].pc.Unlinking?
  {
    WithPc(s.(dir := s.dir - {p}), p, Opening(s.procs[p].pc.path))
  }

  function OpenFile(s: State, p: Pid, inode: Inode): State
    requires p in s.procs && s.procs[p].pc.Opening?
  {
    var q := s.procs[p];
    var s1 := if q.fd.Some? then Release(s, q.fd.value, p) else s;
    var i := if p in s.dir then s.dir[p] else inode;
    var s2 := if p in s.dir then s1
              else s1.(dir := s1.dir[p := i], files := s1.files[i := File(p, {}, false)], locks := s1.locks[i := map[]]);
    s2.(procs := s.procs[p := q.(pc := ClosingGc(q.pc.path), fd := Some(i))])
  }

  function CloseGc(s: State, p: Pid): State
    requires p in s.procs && s.procs[p].pc.ClosingGc?
  {
    WithPc(s.(gcLock := s.gcLock - {p}), p, WantRead(s.procs[p].pc.path))
  }

  function AcquireRead(s: State, p: Pid): State
    requires p in s.procs && s.procs[p].pc.WantRead? && s.procs[p].fd.Some? && s.procs[p].fd.value in s.locks
  {
    WithPc(SetLock(s, s.procs[p].fd.value, p, Read), p, Checking(s.procs[p].pc.path))
  }

  function CheckSize(s: State, p: Pid): State
    requires p in s.procs && s.procs[p].pc.Checking? && s.procs[p].fd.Some? && s.procs[p].fd.value in s.files
  {
    var f := s.files[s.procs[p].fd.value];
    var path := s.procs[p].pc.path;
    WithPc(s, p, if f.roots == {} && !f.stale then WantWrite(path) else WantGcRead(path))
  }

  function AcquireWrite(s: State, p: Pid): State
    requires p in s.procs && s.procs[p].pc.WantWrite? && s.procs[p].fd.Some? && s.procs[p].fd.value in s.locks
  {
    WithPc(SetLock(s, s.procs[p].fd.value, p, Write), p, Writing(s.procs[p].pc.path))
  }

  function AppendRoot(s: State, p: Pid): State
    requires p in s.procs && s.procs[p].pc.Writing? && s.procs[p].fd.Some? && s.procs[p].fd.value in s.files
  {
    var i, path := s.procs[p].fd.value, s.procs[p].pc.path;
    WithPc(s.(files := s.files[i := s.files[i].(roots := s.files[i].roots + {path})]), p, Downgrading(path))
  }

  function Downgrade(s: State, p: Pid): State
    requires p in s.procs && s.procs[p].pc.Downgrading? && s.procs[p].fd.Some? && s.procs[p].fd.value in s.locks
  {
    var q := s.procs[p];
    SetLock(s, q.fd.value, p, Read).(procs := s.procs[p := q.(pc := Idle, returned := q.returned + {q.pc.path})])
  }

  // The steps of collectGarbage() up to the release of its locks, readTempRoots() among them

  function AcquireGcWrite(s: State, p: Pid): State
    requires p in s.procs && s.procs[p].pc.WantGcWrite?
  {
    WithPc(s.(gcLock := s.gcLock[p := Write]), p, Listing)
  }

  function ListDirectory(s: State, p: Pid): State
    requires p in s.procs && s.procs[p].pc.Listing?
  {
    s.(procs := s.procs[p := s.procs[p].(pc := NextFile(s.dir.Keys), tempRoots := {}, frozen := {})])
  }

  function PickFile(s: State, p: Pid, name: Pid): State
    requires p in s.procs && s.procs[p].pc.NextFile?
  {
    var todo := s.procs[p].pc.todo;
    WithPc(s, p, if todo == {} then Sweeping
                 else if name in s.dir then TryLocking(todo - {name}, name, s.dir[name])
                 else NextFile(todo - {name}))
  }

  function TryWriteLock(s: State, p: Pid): State
    requires p in s.procs && s.procs[p].pc.TryLocking? && s.procs[p].pc.inode in s.locks
  {
    var TryLocking(todo, n, i) := s.procs[p].pc;
    if CanWrite(s.locks[i], p) then WithPc(SetLock(s, i, p, Write), p, UnlinkStale(todo, n, i))
    else WithPc(s, p, WantFreeze(todo, n, i))
  }

  function UnlinkFile(s: State, p: Pid): State
    requires p in s.procs && s.procs[p].pc.UnlinkStale?
  {
    var UnlinkStale(todo, n, i) := s.procs[p].pc;
    WithPc(s.(dir := s.dir - {n}, unlocked := if s.procs[p].fd == Some(i) then s.unlocked + {p} else s.unlocked),
           p, MarkStale(todo, n, i))
  }

  function WriteToken(s: State, p: Pid): State
    requires p in s.procs && s.procs[p].pc.MarkStale? && s.procs[p].pc.inode in s.files
  {
    var MarkStale(todo, n, i) := s.procs[p].pc;
    WithPc(s.(files := s.files[i := s.files[i].(stale := true)]), p, CloseStale(todo, n, i))
  }

  function CloseFile(s: State, p: Pid): State
    requires p in s.procs && s.procs[p].pc.CloseStale? && s.procs[p].pc.inode in s.locks
  {
    var CloseStale(todo, _, i) := s.procs[p].pc;
    WithPc(Release(s, i, p), p, NextFile(todo))
  }

  function AcquireFreeze(s: State, p: Pid): State
    requires p in s.procs && s.procs[p].pc.WantFreeze? && s.procs[p].pc.inode in s.locks
  {
    var WantFreeze(todo, n, i) := s.procs[p].pc;
    WithPc(SetLock(s, i, p, Read), p, ReadFile(todo, n, i))
  }

  function ReadRoots(s: State, p: Pid): State
    requires p in s.procs && s.procs[p].pc.ReadFile? && s.procs[p].pc.inode in s.files
  {
    var q := s.procs[p];
    var i := q.pc.inode;
    s.(procs := s.procs[p := q.(pc := NextFile(q.pc.todo), tempRoots := q.tempRoots + s.files[i].roots, frozen := q.frozen + {i})])
  }

  function EndSweep(s: State, p: Pid): State
    requires p in s.procs && s.procs[p].pc.Sweeping?
  {
    WithPc(s.(gcLock := s.gcLock - {p}), p, Unfreezing)
  }

  function Unfreeze(s: State, p: Pid): State
    requires p in s.procs && s.procs[p].pc.Unfreezing?
  {
    var q := s.procs[p];
    s.(locks := (map i | i in s.locks :: if i in q.frozen then s.locks[i] - {p} else s.locks[i]),
       unlocked := if q.fd.Some? && q.fd.value in q.frozen then s.unlocked + {p} else s.unlocked,
       procs := s.procs[p := q.(pc := Idle, tempRoots := {}, frozen := {})])
  }

  // The steps of an orderly exit: the roots file, if there is one, is closed and then unlinked

  function CloseStore(s: State, p: Pid): State
    requires p in s.procs
  {
    var q := s.procs[p];
    var s1 := if q.fd.Some? then Release(s, q.fd.value, p) else s;
    s1.(procs := s.procs[p := Proc(if q.fd.Some? then Leaving else Left, None, {}, {}, {})], unlocked := s.unlocked - {p})
  }

  function UnlinkOwn(s: State, p: Pid): State
    requires p in s.procs && s.procs[p].pc.Leaving?
  {
    WithPc(s.(dir := s.dir - {p}), p, Left)
  }

  function Step(s: State, p: Pid, inode: Inode, name: Pid): State
    requires Enabled(s, Advance(p, inode, name))
  {
    match s.procs[p].pc
    case WantGcRead(_) => AcquireGcRead(s, p)
    case Unlinking(_) => UnlinkOld(s, p)
    case Opening(_) => OpenFile(s, p, inode)
    case ClosingGc(_) => CloseGc(s, p)
    case WantRead(_) => AcquireRead(s, p)
    case Checking(_) => CheckSize(s, p)
    case WantWrite(_) => AcquireWrite(s, p)
    case Writing(_) => AppendRoot(s, p)
    case Downgrading(_) => Downgrade(s, p)
    case WantGcWrite => AcquireGcWrite(s, p)
    case Listing => ListDirectory(s, p)
    case NextFile(_) => PickFile(s, p, name)
    case TryLocking(_, _, _) => TryWriteLock(s, p)
    case UnlinkStale(_, _, _) => UnlinkFile(s, p)
    case MarkStale(_, _, _) => WriteToken(s, p)
    case CloseStale(_, _, _) => CloseFile(s, p)
    case WantFreeze(_, _, _) => AcquireFreeze(s, p)
    case ReadFile(_, _, _) => ReadRoots(s, p)
    case Sweeping => EndSweep(s, p)
    case Unfreezing => Unfreeze(s, p)
    case Leaving => UnlinkOwn(s, p)
  }

  // The invariant

  predicate Linked(s: State, name: Pid, i: Inode) {
    name in s.dir && s.dir[name] == i
  }

  /** Inside addTempRoot(), before its file is known to be good. */
  predicate Preparing(pc: Pc) {
    pc.WantGcRead? || pc.Unlinking? || pc.Opening? || pc.ClosingGc? || pc.WantRead? || pc.Checking?
  }

  predicate Confirmed(q: Proc) {
    q.fd.Some? && !Preparing(q.pc)
  }

  predicate AtFile(pc: Pc) {
    pc.TryLocking? || pc.UnlinkStale? || pc.MarkStale? || pc.CloseStale? || pc.WantFreeze? || pc.ReadFile?
  }

  /** From the listing of the directory to the end of the sweep. */
  predicate Collecting(pc: Pc) {
    pc.NextFile? || AtFile(pc) || pc.Sweeping?
  }

  function Todo(pc: Pc): set<Pid> {
    if pc.NextFile? then pc.todo else if AtFile(pc) then pc.todo + {pc.name} else {}
  }

  predicate LockOK(l: Lock) {
    forall p, q :: p in l && q in l && l[p].Write? ==> p == q
  }

  ghost predicate BeingRemoved(s: State, i: Inode) {
    exists k :: k in s.procs && s.procs[k].pc.MarkStale? && s.procs[k].pc.inode == i
  }

  ghost predicate Global(s: State) {
    s.locks.Keys == s.files.Keys
    && LockOK(s.gcLock)
    && (forall i :: i in s.locks ==> LockOK(s.locks[i]))
    && (forall p :: p in s.gcLock ==> p in s.procs)
    && (forall i, p :: i in s.locks && p in s.locks[i] ==> p in s.procs)
    && (forall n :: n in s.dir ==> s.dir[n] in s.files && s.files[s.dir[n]].owner == n)
  }

  ghost predicate ClientInv(s: State, p: Pid)
    requires p in s.procs && s.locks.Keys == s.files.Keys
  {
    var q := s.procs[p];
    (q.pc.Leaving? || q.pc.Left? ==> q.fd.None?)
    && (q.fd.None? ==> q.returned == {} && !q.pc.ClosingGc? && !q.pc.WantRead? && !q.pc.Checking?
                       && !q.pc.WantWrite? && !q.pc.Writing? && !q.pc.Downgrading?)
    && (Preparing(q.pc) ==> q.returned == {})
    && (q.pc.Unlinking? || q.pc.Opening? || q.pc.ClosingGc? ==> p in s.gcLock && s.gcLock[p].Read?)
    && (q.fd.Some? ==>
          var i := q.fd.value;
          i in s.files && s.files[i].owner == p
          && (q.pc.ClosingGc? || q.pc.WantRead? || q.pc.Checking? ==> Linked(s, p, i) || s.files[i].stale || BeingRemoved(s, i))
          && (q.pc.Checking? ==> p in s.locks[i] && s.locks[i][p].Read?)
          && (Confirmed(q) ==> q.returned <= s.files[i].roots)
          && (Confirmed(q) && p !in s.unlocked ==> Linked(s, p, i) && p in s.locks[i])
          && (q.pc.Writing? || q.pc.Downgrading? ==> p in s.locks[i] && s.locks[i][p].Write?)
          && (q.pc.Downgrading? ==> q.pc.path in s.files[i].roots))
  }

  /** The name of the file is in the directory, unless its owner has gone. */
  predicate InPlace(s: State, name: Pid, i: Inode) {
    Linked(s, name, i) || (name !in s.dir && !(name in s.procs && s.procs[name].fd == Some(i)))
  }

  ghost predicate CollectorInv(s: State, p: Pid)
    requires p in s.procs && s.locks.Keys == s.files.Keys
  {
    var q := s.procs[p];
    (q.pc.Listing? || Collecting(q.pc) ==> p in s.gcLock && s.gcLock[p].Write?)
    && (Collecting(q.pc) ==>
          (forall i :: i in q.frozen ==> i in s.files && p in s.locks[i] && InPlace(s, s.files[i].owner, i)
                                         && s.files[i].owner !in Todo(q.pc) && s.files[i].roots <= q.tempRoots)
          && (forall n :: n in s.dir ==> n in Todo(q.pc) || s.dir[n] in q.frozen))
    && (q.pc.Unfreezing? && p in s.dir ==> s.dir[p] in q.frozen)
    && (AtFile(q.pc) ==>
          var i := q.pc.inode;
          i in s.files && s.files[i].owner == q.pc.name && q.pc.name !in q.pc.todo
          && (if q.pc.MarkStale? || q.pc.CloseStale? then q.pc.name !in s.dir else InPlace(s, q.pc.name, i))
          && (q.pc.UnlinkStale? || q.pc.MarkStale? || q.pc.CloseStale? ==> p in s.locks[i] && s.locks[i][p].Write?)
          && (q.pc.CloseStale? ==> s.files[i].stale)
          && (q.pc.ReadFile? ==> p in s.locks[i]))
  }

  ghost predicate Inv(s: State) {
    Global(s) && forall p :: p in s.procs ==> ClientInv(s, p) && CollectorInv(s, p)
  }

  const INITIAL := State(map[], map[], map[], map[], map[], {})

  /** From `s` to `t` process `p` has changed nothing but itself and its own locks. */
  ghost predicate OwnOnly(s: State, t: State, p: Pid) {
    t.procs.Keys == s.procs.Keys && (forall r :: r in s.procs && r != p ==> t.procs[r] == s.procs[r])
    && t.dir == s.dir && t.files == s.files && t.locks.Keys == s.locks.Keys
    && (forall i, r :: i in s.locks && r in s.locks[i] && r != p ==> r in t.locks[i] && t.locks[i][r] == s.locks[i][r])
    && (forall r :: r in s.gcLock && r != p ==> r in t.gcLock && t.gcLock[r] == s.gcLock[r])
    && (forall r :: r != p ==> (r in t.unlocked <==> r in s.unlocked)) && SameFile(s, t, p)
  }

  /** Process `p` has not opened another file. */
  predicate SameFile(s: State, t: State, p: Pid) {
    p in s.procs && p in t.procs && (t.procs[p].fd == s.procs[p].fd || t.procs[p].fd.None?)
  }

  lemma OthersUnaffected(s: State, t: State, p: Pid, r: Pid)
    requires p in s.procs && r in s.procs && r != p && s.locks.Keys == s.files.Keys
    requires ClientInv(s, r) && CollectorInv(s, r) && OwnOnly(s, t, p) && !s.procs[p].pc.MarkStale?
    ensures ClientInv(t, r) && CollectorInv(t, r)
  {
    if r in t.procs && t.procs[r].fd.Some? && BeingRemoved(s, t.procs[r].fd.value) {
      var i := t.procs[r].fd.value;
      var k :| k in s.procs && s.procs[k].pc.MarkStale? && s.procs[k].pc.inode == i;
      assert k in t.procs && t.procs[k] == s.procs[k];
    }
  }

  /** A file that its owner holds a lock on is not being removed. */
  lemma LockedIsNotRemoved(s: State, p: Pid, i: Inode)
    requires Inv(s) && p in s.procs && !s.procs[p].pc.MarkStale? && i in s.locks && p in s.locks[i]
    ensures !BeingRemoved(s, i)
  {
    if k :| k in s.procs && s.procs[k].pc.MarkStale? && s.procs[k].pc.inode == i {
      assert false;
    }
  }

  /** While a process holds the GC lock, nobody else is removing a file. */
  lemma GcLockHolderRemoves(s: State, p: Pid, i: Inode)
    requires Inv(s) && p in s.gcLock && BeingRemoved(s, i)
    ensures s.procs[p].pc.MarkStale? && s.procs[p].pc.inode == i
  {
    var k :| k in s.procs && s.procs[k].pc.MarkStale? && s.procs[k].pc.inode == i;
    assert CollectorInv(s, k);
  }

  lemma RemovalGoesOn(s: State, t: State, p: Pid, i: Inode)
    requires p in s.procs && !s.procs[p].pc.MarkStale? && BeingRemoved(s, i)
    requires t.procs.Keys == s.procs.Keys && forall r :: r in s.procs && r != p ==> t.procs[r] == s.procs[r]
    ensures BeingRemoved(t, i)
  {
    var k :| k in s.procs && s.procs[k].pc.MarkStale? && s.procs[k].pc.inode == i;
    assert k in t.procs && t.procs[k] == s.procs[k];
  }

  ghost predicate ReturnedGrows(s: State, t: State, p: Pid)
    requires p in s.procs
  {
    p in t.procs && s.procs[p].returned <= t.procs[p].returned
    && forall r :: r in s.procs && r != p ==> r in t.procs && t.procs[r] == s.procs[r]
  }

  // What each step keeps of the process that takes it.

  /** Process `p` changes nothing but itself. */
  lemma ProcStep(s: State, t: State, p: Pid)
    requires Global(s) && p in s.procs && t == s.(procs := t.procs) && t.procs.Keys == s.procs.Keys
    requires (forall r :: r in s.procs && r != p ==> t.procs[r] == s.procs[r]) && SameFile(s, t, p)
    ensures Global(t) && OwnOnly(s, t, p)
  {
  }

  /** Process `p` drops its lock. */
  lemma ReleaseStep(s: State, t: State, p: Pid, i: Inode)
    requires Global(s) && p in s.procs && i in s.locks
    requires t == Release(s, i, p).(procs := t.procs) && t.procs.Keys == s.procs.Keys
    requires (forall r :: r in s.procs && r != p ==> t.procs[r] == s.procs[r]) && SameFile(s, t, p)
    ensures Global(t) && OwnOnly(s, t, p)
  {
  }

  /** Process `p` takes a lock that it may take. */
  lemma LockStep(s: State, t: State, p: Pid, i: Inode, ty: LockType)
    requires Global(s) && p in s.procs && i in s.locks && (if ty.Read? then CanRead(s.locks[i], p) else CanWrite(s.locks[i], p))
    requires t == SetLock(s, i, p, ty).(procs := t.procs) && t.procs.Keys == s.procs.Keys
    requires (forall r :: r in s.procs && r != p ==> t.procs[r] == s.procs[r]) && SameFile(s, t, p)
    ensures Global(t) && OwnOnly(s, t, p)
  {
  }

  lemma AcquireGcReadKeepsOwn(s: State, p: Pid)
    requires Global(s) && p in s.procs && s.procs[p].pc.WantGcRead? && ClientInv(s, p) && CollectorInv(s, p)
    requires CanRead(s.gcLock, p)
    ensures var t := AcquireGcRead(s, p); Global(t) && ClientInv(t, p) && CollectorInv(t, p) && ReturnedGrows(s, t, p) && OwnOnly(s, t, p)
  {
  }

  lemma UnlinkOldKeepsOwn(s: State, p: Pid)
    requires Global(s) && p in s.procs && s.procs[p].pc.Unlinking? && ClientInv(s, p) && CollectorInv(s, p)
    ensures var t := UnlinkOld(s, p); Global(t) && ClientInv(t, p) && CollectorInv(t, p) && ReturnedGrows(s, t, p)
  {
  }

  lemma ReleaseKeepsGlobal(s: State, i: Inode, p: Pid)
    requires Global(s)
    ensures Global(Release(s, i, p))
  {
  }

  lemma CreateKeepsGlobal(s: State, p: Pid, i: Inode, q: Proc)
    requires Global(s) && p in s.procs && p !in s.dir && i !in s.files
    ensures Global(s.(dir := s.dir[p := i], files := s.files[i := File(p, {}, false)], locks := s.locks[i := map[]],
                      procs := s.procs[p := q]))
  {
  }

  lemma OpenFileKeepsOwn(s: State, p: Pid, inode: Inode)
    requires Global(s) && p in s.procs && s.procs[p].pc.Opening? && ClientInv(s, p) && CollectorInv(s, p)
    requires p in s.dir || inode !in s.files
    ensures var t := OpenFile(s, p, inode); Global(t) && ClientInv(t, p) && CollectorInv(t, p) && ReturnedGrows(s, t, p)
  {
    var q, t := s.procs[p], OpenFile(s, p, inode);
    var s1 := if q.fd.Some? then Release(s, q.fd.value, p) else s;
    if q.fd.Some? { ReleaseKeepsGlobal(s, q.fd.value, p); }
    if p !in s.dir { CreateKeepsGlobal(s1, p, inode, t.procs[p]); }
  }

  lemma CloseGcKeepsOwn(s: State, p: Pid)
    requires Global(s) && p in s.procs && s.procs[p].pc.ClosingGc? && ClientInv(s, p) && CollectorInv(s, p)
    ensures var t := CloseGc(s, p); Global(t) && ClientInv(t, p) && CollectorInv(t, p) && ReturnedGrows(s, t, p) && OwnOnly(s, t, p)
  {
    var i := s.procs[p].fd.value;
    if BeingRemoved(s, i) { RemovalGoesOn(s, CloseGc(s, p), p, i); }
  }

  lemma AcquireReadKeepsCollector(s: State, p: Pid)
    requires Global(s) && p in s.procs && s.procs[p].pc.WantRead? && ClientInv(s, p) && CollectorInv(s, p)
    ensures CollectorInv(AcquireRead(s, p), p)
  {
  }

  lemma AcquireReadKeepsClient(s: State, p: Pid)
    requires Global(s) && p in s.procs && s.procs[p].pc.WantRead? && ClientInv(s, p)
    ensures ClientInv(AcquireRead(s, p), p)
  {
    var i := s.procs[p].fd.value;
    if BeingRemoved(s, i) { RemovalGoesOn(s, AcquireRead(s, p), p, i); }
  }

  lemma AcquireReadKeepsOwn(s: State, p: Pid)
    requires Global(s) && p in s.procs && s.procs[p].pc.WantRead? && ClientInv(s, p) && CollectorInv(s, p)
    requires CanRead(s.locks[s.procs[p].fd.value], p)
    ensures var t := AcquireRead(s, p); Global(t) && ClientInv(t, p) && CollectorInv(t, p) && ReturnedGrows(s, t, p) && OwnOnly(s, t, p)
  {
    LockStep(s, AcquireRead(s, p), p, s.procs[p].fd.value, Read);
    AcquireReadKeepsClient(s, p);
    AcquireReadKeepsCollector(s, p);
  }

  lemma CheckSizeKeepsOwn(s: State, p: Pid)
    requires Global(s) && p in s.procs && s.procs[p].pc.Checking? && ClientInv(s, p) && CollectorInv(s, p)
    requires !BeingRemoved(s, s.procs[p].fd.value)
    ensures var t := CheckSize(s, p); Global(t) && ClientInv(t, p) && CollectorInv(t, p) && ReturnedGrows(s, t, p) && OwnOnly(s, t, p)
  {
  }

  lemma AcquireWriteKeepsBoth(s: State, p: Pid)
    requires Global(s) && p in s.procs && s.procs[p].pc.WantWrite? && ClientInv(s, p) && CollectorInv(s, p)
    ensures ClientInv(AcquireWrite(s, p), p) && CollectorInv(AcquireWrite(s, p), p)
  {
  }

  lemma AcquireWriteKeepsOwn(s: State, p: Pid)
    requires Global(s) && p in s.procs && s.procs[p].pc.WantWrite? && ClientInv(s, p) && CollectorInv(s, p)
    requires CanWrite(s.locks[s.procs[p].fd.value], p)
    ensures var t := AcquireWrite(s, p); Global(t) && ClientInv(t, p) && CollectorInv(t, p) && ReturnedGrows(s, t, p) && OwnOnly(s, t, p)
  {
    LockStep(s, AcquireWrite(s, p), p, s.procs[p].fd.value, Write);
    AcquireWriteKeepsBoth(s, p);
  }

  lemma AppendRootKeepsOwn(s: State, p: Pid)
    requires Global(s) && p in s.procs && s.procs[p].pc.Writing? && ClientInv(s, p) && CollectorInv(s, p)
    ensures var t := AppendRoot(s, p); Global(t) && ClientInv(t, p) && CollectorInv(t, p) && ReturnedGrows(s, t, p)
  {
  }

  lemma DowngradeKeepsBoth(s: State, p: Pid)
    requires Global(s) && p in s.procs && s.procs[p].pc.Downgrading? && ClientInv(s, p) && CollectorInv(s, p)
    ensures ClientInv(Downgrade(s, p), p) && CollectorInv(Downgrade(s, p), p)
  {
  }

  lemma DowngradeKeepsOwn(s: State, p: Pid)
    requires Global(s) && p in s.procs && s.procs[p].pc.Downgrading? && ClientInv(s, p) && CollectorInv(s, p)
    ensures var t := Downgrade(s, p); Global(t) && ClientInv(t, p) && CollectorInv(t, p) && ReturnedGrows(s, t, p) && OwnOnly(s, t, p)
  {
    LockStep(s, Downgrade(s, p), p, s.procs[p].fd.value, Read);
    DowngradeKeepsBoth(s, p);
  }

  lemma AcquireGcWriteKeepsOwn(s: State, p: Pid)
    requires Global(s) && p in s.procs && s.procs[p].pc.WantGcWrite? && ClientInv(s, p) && CollectorInv(s, p)
    requires CanWrite(s.gcLock, p)
    ensures var t := AcquireGcWrite(s, p); Global(t) && ClientInv(t, p) && CollectorInv(t, p) && ReturnedGrows(s, t, p) && OwnOnly(s, t, p)
  {
  }

  lemma ListDirectoryKeepsOwn(s: State, p: Pid)
    requires Global(s) && p in s.procs && s.procs[p].pc.Listing? && ClientInv(s, p) && CollectorInv(s, p)
    ensures var t := ListDirectory(s, p); Global(t) && ClientInv(t, p) && CollectorInv(t, p) && ReturnedGrows(s, t, p) && OwnOnly(s, t, p)
  {
  }

  lemma PickFileKeepsCollector(s: State, p: Pid, name: Pid)
    requires Global(s) && p in s.procs && s.procs[p].pc.NextFile? && CollectorInv(s, p)
    requires (s.procs[p].pc.todo == {} || name in s.procs[p].pc.todo)
    ensures CollectorInv(PickFile(s, p, name), p)
  {
  }

  lemma PickFileKeepsOwn(s: State, p: Pid, name: Pid)
    requires Global(s) && p in s.procs && s.procs[p].pc.NextFile? && ClientInv(s, p) && CollectorInv(s, p)
    requires (s.procs[p].pc.todo == {} || name in s.procs[p].pc.todo)
    ensures var t := PickFile(s, p, name); Global(t) && ClientInv(t, p) && CollectorInv(t, p) && ReturnedGrows(s, t, p) && OwnOnly(s, t, p)
  {
    ProcStep(s, PickFile(s, p, name), p);
    PickFileKeepsCollector(s, p, name);
  }

  lemma WriteLockedKeepsBoth(s: State, p: Pid)
    requires Global(s) && p in s.procs && s.procs[p].pc.TryLocking? && ClientInv(s, p) && CollectorInv(s, p)
    requires CanWrite(s.locks[s.procs[p].pc.inode], p)
    ensures ClientInv(TryWriteLock(s, p), p) && CollectorInv(TryWriteLock(s, p), p)
  {
    assert TryWriteLock(s, p).procs[p].pc.UnlinkStale?;
  }

  lemma NotLockedKeepsOwn(s: State, p: Pid)
    requires Global(s) && p in s.procs && s.procs[p].pc.TryLocking? && ClientInv(s, p) && CollectorInv(s, p)
    requires !CanWrite(s.locks[s.procs[p].pc.inode], p)
    ensures var t := TryWriteLock(s, p); Global(t) && ClientInv(t, p) && CollectorInv(t, p) && OwnOnly(s, t, p)
  {
    assert TryWriteLock(s, p).locks == s.locks;
  }

  lemma TryWriteLockKeepsOwn(s: State, p: Pid)
    requires Global(s) && p in s.procs && s.procs[p].pc.TryLocking? && ClientInv(s, p) && CollectorInv(s, p)
    ensures var t := TryWriteLock(s, p); Global(t) && ClientInv(t, p) && CollectorInv(t, p) && ReturnedGrows(s, t, p) && OwnOnly(s, t, p)
  {
    var i := s.procs[p].pc.inode;
    if CanWrite(s.locks[i], p) {
      LockStep(s, TryWriteLock(s, p), p, i, Write);
      WriteLockedKeepsBoth(s, p);
    } else {
      NotLockedKeepsOwn(s, p);
    }
  }

  lemma UnlinkFileKeepsOwn(s: State, p: Pid)
    requires Global(s) && p in s.procs && s.procs[p].pc.UnlinkStale? && ClientInv(s, p) && CollectorInv(s, p)
    ensures var t := UnlinkFile(s, p); Global(t) && ClientInv(t, p) && CollectorInv(t, p) && ReturnedGrows(s, t, p)
  {
  }

  lemma WriteTokenKeepsOwn(s: State, p: Pid)
    requires Global(s) && p in s.procs && s.procs[p].pc.MarkStale? && ClientInv(s, p) && CollectorInv(s, p)
    ensures var t := WriteToken(s, p); Global(t) && ClientInv(t, p) && CollectorInv(t, p) && ReturnedGrows(s, t, p)
  {
  }

  lemma CloseFileKeepsCollector(s: State, p: Pid)
    requires Global(s) && p in s.procs && s.procs[p].pc.CloseStale? && CollectorInv(s, p)
    ensures CollectorInv(CloseFile(s, p), p)
  {
  }

  lemma CloseFileKeepsOwn(s: State, p: Pid)
    requires Global(s) && p in s.procs && s.procs[p].pc.CloseStale? && ClientInv(s, p) && CollectorInv(s, p)
    ensures var t := CloseFile(s, p); Global(t) && ClientInv(t, p) && CollectorInv(t, p) && ReturnedGrows(s, t, p) && OwnOnly(s, t, p)
  {
    ReleaseStep(s, CloseFile(s, p), p, s.procs[p].pc.inode);
    CloseFileKeepsCollector(s, p);
  }

  lemma AcquireFreezeKeepsBoth(s: State, p: Pid)
    requires Global(s) && p in s.procs && s.procs[p].pc.WantFreeze? && ClientInv(s, p) && CollectorInv(s, p)
    ensures ClientInv(AcquireFreeze(s, p), p) && CollectorInv(AcquireFreeze(s, p), p)
  {
  }

  lemma AcquireFreezeKeepsOwn(s: State, p: Pid)
    requires Global(s) && p in s.procs && s.procs[p].pc.WantFreeze? && ClientInv(s, p) && CollectorInv(s, p)
    requires CanRead(s.locks[s.procs[p].pc.inode], p)
    ensures var t := AcquireFreeze(s, p); Global(t) && ClientInv(t, p) && CollectorInv(t, p) && ReturnedGrows(s, t, p) && OwnOnly(s, t, p)
  {
    LockStep(s, AcquireFreeze(s, p), p, s.procs[p].pc.inode, Read);
    AcquireFreezeKeepsBoth(s, p);
  }

  lemma ReadRootsKeepsCollector(s: State, p: Pid)
    requires Global(s) && p in s.procs && s.procs[p].pc.ReadFile? && CollectorInv(s, p)
    ensures CollectorInv(ReadRoots(s, p), p)
  {
  }

  lemma ReadRootsKeepsOwn(s: State, p: Pid)
    requires Global(s) && p in s.procs && s.procs[p].pc.ReadFile? && ClientInv(s, p) && CollectorInv(s, p)
    ensures var t := ReadRoots(s, p); Global(t) && ClientInv(t, p) && CollectorInv(t, p) && ReturnedGrows(s, t, p) && OwnOnly(s, t, p)
  {
    ProcStep(s, ReadRoots(s, p), p);
    ReadRootsKeepsCollector(s, p);
  }

  lemma EndSweepKeepsOwn(s: State, p: Pid)
    requires Global(s) && p in s.procs && s.procs[p].pc.Sweeping? && ClientInv(s, p) && CollectorInv(s, p)
    ensures var t := EndSweep(s, p); Global(t) && ClientInv(t, p) && CollectorInv(t, p) && ReturnedGrows(s, t, p) && OwnOnly(s, t, p)
  {
  }

  lemma UnfreezeKeepsCollector(s: State, p: Pid)
    requires Global(s) && p in s.procs && s.procs[p].pc.Unfreezing? && CollectorInv(s, p)
    ensures CollectorInv(Unfreeze(s, p), p)
  {
  }

  lemma UnfreezeKeepsOwn(s: State, p: Pid)
    requires Global(s) && p in s.procs && s.procs[p].pc.Unfreezing? && ClientInv(s, p) && CollectorInv(s, p)
    ensures var t := Unfreeze(s, p); Global(t) && ClientInv(t, p) && CollectorInv(t, p) && ReturnedGrows(s, t, p) && OwnOnly(s, t, p)
  {
    UnfreezeKeepsCollector(s, p);
  }

  lemma CloseStoreIsOwn(s: State, p: Pid)
    requires Global(s) && p in s.procs
    ensures Global(CloseStore(s, p)) && OwnOnly(s, CloseStore(s, p), p)
  {
    var q, t := s.procs[p], CloseStore(s, p);
    if q.fd.Some? && q.fd.value in s.locks { ReleaseStep(s, t.(unlocked := s.unlocked), p, q.fd.value); }
  }

  lemma CloseStoreKeepsOwn(s: State, p: Pid)
    requires Global(s) && p in s.procs && s.procs[p].pc.Idle? && ClientInv(s, p) && CollectorInv(s, p)
    ensures var t := CloseStore(s, p); Global(t) && ClientInv(t, p) && CollectorInv(t, p) && OwnOnly(s, t, p)
  {
    CloseStoreIsOwn(s, p);
  }

  lemma UnlinkOwnKeepsOwn(s: State, p: Pid)
    requires Global(s) && p in s.procs && s.procs[p].pc.Leaving? && ClientInv(s, p) && CollectorInv(s, p)
    ensures var t := UnlinkOwn(s, p); Global(t) && ClientInv(t, p) && CollectorInv(t, p) && ReturnedGrows(s, t, p)
  {
  }

  // What the steps that touch the directory or a file keep of the other processes.

  lemma UnlinkOldKeepsOthers(s: State, p: Pid, r: Pid)
    requires Inv(s) && p in s.procs && s.procs[p].pc.Unlinking? && r in s.procs && r != p
    ensures ClientInv(UnlinkOld(s, p), r) && CollectorInv(UnlinkOld(s, p), r)
  {
    assert ClientInv(s, p) && ClientInv(s, r) && CollectorInv(s, r);
    forall i | BeingRemoved(s, i) ensures false { GcLockHolderRemoves(s, p, i); }
  }

  lemma UnlinkOwnKeepsClients(s: State, p: Pid, r: Pid)
    requires Global(s) && p in s.procs && s.procs[p].pc.Leaving? && r in s.procs && r != p && ClientInv(s, r)
    ensures ClientInv(UnlinkOwn(s, p), r)
  {
    if s.procs[r].fd.Some? && BeingRemoved(s, s.procs[r].fd.value) { RemovalGoesOn(s, UnlinkOwn(s, p), p, s.procs[r].fd.value); }
  }

  lemma UnlinkOwnKeepsCollectors(s: State, p: Pid, r: Pid)
    requires Global(s) && p in s.procs && s.procs[p].pc.Leaving? && r in s.procs && r != p && ClientInv(s, p) && CollectorInv(s, r)
    ensures CollectorInv(UnlinkOwn(s, p), r)
  {
  }

  lemma OpenFileKeepsOthers(s: State, p: Pid, inode: Inode, r: Pid)
    requires Inv(s) && p in s.procs && s.procs[p].pc.Opening? && r in s.procs && r != p
    requires p in s.dir || inode !in s.files
    ensures var t := OpenFile(s, p, inode); t.locks.Keys == t.files.Keys && ClientInv(t, r) && CollectorInv(t, r)
  {
    assert ClientInv(s, p) && ClientInv(s, r) && CollectorInv(s, r);
    forall i | BeingRemoved(s, i) ensures false { GcLockHolderRemoves(s, p, i); }
  }

  lemma AppendRootKeepsClients(s: State, p: Pid, r: Pid)
    requires Global(s) && p in s.procs && s.procs[p].pc.Writing? && r in s.procs && r != p && ClientInv(s, p) && ClientInv(s, r)
    ensures var t := AppendRoot(s, p); t.locks.Keys == t.files.Keys && ClientInv(t, r)
  {
    if s.procs[r].fd.Some? && BeingRemoved(s, s.procs[r].fd.value) { RemovalGoesOn(s, AppendRoot(s, p), p, s.procs[r].fd.value); }
  }

  lemma AppendRootKeepsCollectors(s: State, p: Pid, r: Pid)
    requires Global(s) && p in s.procs && s.procs[p].pc.Writing? && r in s.procs && r != p && ClientInv(s, p) && CollectorInv(s, r)
    ensures var t := AppendRoot(s, p); t.locks.Keys == t.files.Keys && CollectorInv(t, r)
  {
  }

  lemma UnlinkFileKeepsOthers(s: State, p: Pid, r: Pid)
    requires Inv(s) && p in s.procs && s.procs[p].pc.UnlinkStale? && r in s.procs && r != p
    ensures ClientInv(UnlinkFile(s, p), r) && CollectorInv(UnlinkFile(s, p), r)
  {
    assert CollectorInv(s, p) && ClientInv(s, r) && CollectorInv(s, r);
    var t := UnlinkFile(s, p);
    forall i | BeingRemoved(s, i) ensures false { GcLockHolderRemoves(s, p, i); }
    assert BeingRemoved(t, s.procs[p].pc.inode) by { assert t.procs[p].pc.MarkStale?; }
  }

  lemma WriteTokenKeepsOthers(s: State, p: Pid, r: Pid)
    requires Inv(s) && p in s.procs && s.procs[p].pc.MarkStale? && s.procs[p].pc.inode in s.files && r in s.procs && r != p
    ensures var t := WriteToken(s, p); t.locks.Keys == t.files.Keys && ClientInv(t, r) && CollectorInv(t, r)
  {
    assert CollectorInv(s, p) && ClientInv(s, r) && CollectorInv(s, r);
    forall i | BeingRemoved(s, i) ensures i == s.procs[p].pc.inode { GcLockHolderRemoves(s, p, i); }
  }

  lemma OwnOnlyKeepsInv(s: State, t: State, p: Pid)
    requires Inv(s) && p in s.procs && !s.procs[p].pc.MarkStale? && OwnOnly(s, t, p)
    requires Global(t) && ClientInv(t, p) && CollectorInv(t, p)
    ensures Inv(t)
  {
    forall r | r in t.procs && r != p ensures ClientInv(t, r) && CollectorInv(t, r) {
      OthersUnaffected(s, t, p, r);
    }
  }

  lemma FileStepKeepsInv(s: State, p: Pid, inode: Inode)
    requires Inv(s) && Enabled(s, Advance(p, inode, 0)) && TouchesFiles(s.procs[p].pc)
    ensures Inv(Step(s, p, inode, 0)) && ReturnedGrows(s, Step(s, p, inode, 0), p)
  {
    var pc := s.procs[p].pc;
    var t := Step(s, p, inode, 0);
    if pc.Unlinking? {
      UnlinkOldKeepsOwn(s, p);
      forall r | r in t.procs && r != p ensures ClientInv(t, r) && CollectorInv(t, r) { UnlinkOldKeepsOthers(s, p, r); }
    } else if pc.Leaving? {
      UnlinkOwnKeepsOwn(s, p);
      forall r | r in t.procs && r != p ensures ClientInv(t, r) && CollectorInv(t, r) {
        UnlinkOwnKeepsClients(s, p, r);
        UnlinkOwnKeepsCollectors(s, p, r);
      }
    } else if pc.Opening? {
      OpenFileKeepsOwn(s, p, inode);
      forall r | r in t.procs && r != p ensures ClientInv(t, r) && CollectorInv(t, r) { OpenFileKeepsOthers(s, p, inode, r); }
    } else if pc.Writing? {
      AppendRootKeepsOwn(s, p);
      forall r | r in t.procs && r != p ensures ClientInv(t, r) && CollectorInv(t, r) {
        AppendRootKeepsClients(s, p, r);
        AppendRootKeepsCollectors(s, p, r);
      }
    } else if pc.UnlinkStale? {
      UnlinkFileKeepsOwn(s, p);
      forall r | r in t.procs && r != p ensures ClientInv(t, r) && CollectorInv(t, r) { UnlinkFileKeepsOthers(s, p, r); }
    } else {
      WriteTokenKeepsOwn(s, p);
      forall r | r in t.procs && r != p ensures ClientInv(t, r) && CollectorInv(t, r) { WriteTokenKeepsOthers(s, p, r); }
    }
  }

  predicate TouchesFiles(pc: Pc) {
    pc.Unlinking? || pc.Opening? || pc.Writing? || pc.UnlinkStale? || pc.MarkStale? || pc.Leaving?
  }

  lemma ClientStepKeepsInv(s: State, p: Pid, inode: Inode, name: Pid)
    requires Inv(s) && Enabled(s, Advance(p, inode, name)) && !TouchesFiles(s.procs[p].pc)
    requires ClientPc(s.procs[p].pc)
    ensures Inv(Step(s, p, inode, name)) && ReturnedGrows(s, Step(s, p, inode, name), p)
  {
    match s.procs[p].pc {
      case WantGcRead(_) => AcquireGcReadKeepsOwn(s, p);
      case ClosingGc(_) => CloseGcKeepsOwn(s, p);
      case WantRead(_) => AcquireReadKeepsOwn(s, p);
      case Checking(_) =>
        LockedIsNotRemoved(s, p, s.procs[p].fd.value);
        CheckSizeKeepsOwn(s, p);
      case WantWrite(_) => AcquireWriteKeepsOwn(s, p);
      case Downgrading(_) => DowngradeKeepsOwn(s, p);
    }
    OwnOnlyKeepsInv(s, Step(s, p, inode, name), p);
  }

  /** Inside addTempRoot(). */
  predicate ClientPc(pc: Pc) {
    Preparing(pc) || pc.WantWrite? || pc.Writing? || pc.Downgrading?
  }

  lemma CollectorStepKeepsInv(s: State, p: Pid, inode: Inode, name: Pid)
    requires Inv(s) && Enabled(s, Advance(p, inode, name)) && !TouchesFiles(s.procs[p].pc)
    requires !ClientPc(s.procs[p].pc)
    ensures Inv(Step(s, p, inode, name)) && ReturnedGrows(s, Step(s, p, inode, name), p)
  {
    match s.procs[p].pc {
      case WantGcWrite => AcquireGcWriteKeepsOwn(s, p);
      case Listing => ListDirectoryKeepsOwn(s, p);
      case NextFile(_) => PickFileKeepsOwn(s, p, name);
      case TryLocking(_, _, _) => TryWriteLockKeepsOwn(s, p);
      case CloseStale(_, _, _) => CloseFileKeepsOwn(s, p);
      case WantFreeze(_, _, _) => AcquireFreezeKeepsOwn(s, p);
      case ReadFile(_, _, _) => ReadRootsKeepsOwn(s, p);
      case Sweeping => EndSweepKeepsOwn(s, p);
      case Unfreezing => UnfreezeKeepsOwn(s, p);
    }
    OwnOnlyKeepsInv(s, Step(s, p, inode, name), p);
  }

  /** A removal goes on as long as the process that removes runs. */
  lemma StillBeingRemoved(s: State, t: State, i: Inode)
    requires BeingRemoved(s, i) && forall k :: k in s.procs && s.procs[k].pc.MarkStale? ==> k in t.procs && t.procs[k] == s.procs[k]
    ensures BeingRemoved(t, i)
  {
    var k :| k in s.procs && s.procs[k].pc.MarkStale? && s.procs[k].pc.inode == i;
    assert k in t.procs && t.procs[k] == s.procs[k];
  }

  lemma ExitKeepsGlobal(s: State, p: Pid)
    requires Global(s) && Enabled(s, Exit(p))
    ensures Global(Apply(s, Exit(p)))
  {
  }

  lemma ExitKeepsClient(s: State, p: Pid, r: Pid)
    requires Global(s) && Enabled(s, Exit(p)) && r in s.procs && r != p && ClientInv(s, r)
    ensures var t := Apply(s, Exit(p)); t.locks.Keys == t.files.Keys && ClientInv(t, r)
  {
    var t := Apply(s, Exit(p));
    if t.procs[r].fd.Some? && BeingRemoved(s, t.procs[r].fd.value) { StillBeingRemoved(s, t, t.procs[r].fd.value); }
  }

  lemma ExitKeepsCollector(s: State, p: Pid, r: Pid)
    requires Global(s) && Enabled(s, Exit(p)) && r in s.procs && r != p && CollectorInv(s, r)
    ensures var t := Apply(s, Exit(p)); t.locks.Keys == t.files.Keys && CollectorInv(t, r)
  {
  }

  lemma ExitKeepsInv(s: State, p: Pid)
    requires Inv(s) && Enabled(s, Exit(p))
    ensures Inv(Apply(s, Exit(p)))
  {
    var t := Apply(s, Exit(p));
    ExitKeepsGlobal(s, p);
    forall r | r in t.procs ensures ClientInv(t, r) && CollectorInv(t, r) {
      ExitKeepsClient(s, p, r);
      ExitKeepsCollector(s, p, r);
    }
  }

  lemma SpawnKeepsClient(s: State, p: Pid, r: Pid)
    requires Global(s) && p !in s.procs && r in s.procs && ClientInv(s, r)
    ensures ClientInv(Apply(s, Spawn(p)), r)
  {
    var t := Apply(s, Spawn(p));
    if t.procs[r].fd.Some? && BeingRemoved(s, t.procs[r].fd.value) { StillBeingRemoved(s, t, t.procs[r].fd.value); }
  }

  lemma SpawnKeepsCollector(s: State, p: Pid, r: Pid)
    requires Global(s) && p !in s.procs && r in s.procs && CollectorInv(s, r)
    ensures CollectorInv(Apply(s, Spawn(p)), r)
  {
  }

  lemma SpawnKeepsInv(s: State, p: Pid)
    requires Inv(s) && p !in s.procs
    ensures Inv(Apply(s, Spawn(p)))
  {
    var t := Apply(s, Spawn(p));
    forall r | r in s.procs ensures ClientInv(t, r) && CollectorInv(t, r) {
      SpawnKeepsClient(s, p, r);
      SpawnKeepsCollector(s, p, r);
    }
  }

  lemma CallKeepsOwn(s: State, p: Pid, pc: Pc)
    requires Global(s) && p in s.procs && s.procs[p].pc.Idle? && ClientInv(s, p) && CollectorInv(s, p)
    requires pc.WantGcWrite? || (if s.procs[p].fd.None? then pc.WantGcRead? else pc.WantWrite?)
    ensures var t := WithPc(s, p, pc); Global(t) && ClientInv(t, p) && CollectorInv(t, p) && ReturnedGrows(s, t, p) && OwnOnly(s, t, p)
  {
    ProcStep(s, WithPc(s, p, pc), p);
  }

  /** Calling addTempRoot() or collectGarbage(). */
  lemma CallKeepsInv(s: State, p: Pid, pc: Pc)
    requires Inv(s) && p in s.procs && s.procs[p].pc.Idle?
    requires pc.WantGcWrite? || (if s.procs[p].fd.None? then pc.WantGcRead? else pc.WantWrite?)
    ensures Inv(WithPc(s, p, pc))
  {
    var t := WithPc(s, p, pc);
    CallKeepsOwn(s, p, pc);
    forall r | r in s.procs && r != p ensures ClientInv(t, r) && CollectorInv(t, r) {
      OthersUnaffected(s, t, p, r);
    }
  }

  /** Every step of every process keeps the invariant. */
  lemma StepKeepsInv(s: State, a: Action)
    requires Inv(s) && Enabled(s, a)
    ensures Inv(Apply(s, a))
  {
    match a {
      case Spawn(p) => SpawnKeepsInv(s, p);
      case Exit(p) => ExitKeepsInv(s, p);
      case Leave(p) =>
        CloseStoreKeepsOwn(s, p);
        OwnOnlyKeepsInv(s, Apply(s, a), p);
      case AddTempRoot(p, path) => CallKeepsInv(s, p, if s.procs[p].fd.None? then WantGcRead(path) else WantWrite(path));
      case Collect(p) => CallKeepsInv(s, p, WantGcWrite);
      case Advance(p, inode, name) =>
        if TouchesFiles(s.procs[p].pc) {
          FileStepKeepsInv(s, p, inode);
        } else if ClientPc(s.procs[p].pc) {
          ClientStepKeepsInv(s, p, inode, name);
        } else {
          CollectorStepKeepsInv(s, p, inode, name);
        }
    }
  }

  // Runs

  ghost predicate Run(states: seq<State>, actions: seq<Action>) {
    |states| == |actions| + 1 && states[0] == INITIAL
    && forall i {:trigger actions[i]} :: 0 <= i < |actions| ==> Enabled(states[i], actions[i]) && states[i + 1] == Apply(states[i], actions[i])
  }

  lemma {:induction false} RunKeepsInv(states: seq<State>, actions: seq<Action>, n: nat)
    requires Run(states, actions) && n < |states|
    ensures Inv(states[n])
  {
    if n > 0 {
      RunKeepsInv(states, actions, n - 1);
      StepKeepsInv(states[n - 1], actions[n - 1]);
    }
  }

  /** A sweeping collector has read, and keeps locked, the file of exactly those clients
      whose file is still in the directory. */
  lemma SweepReadsLinkedFiles(s: State, k: Pid, c: Pid)
    requires Inv(s) && k in s.procs && s.procs[k].pc.Sweeping? && c in s.procs && s.procs[c].fd.Some?
    ensures s.procs[c].fd.value in s.procs[k].frozen <==> Linked(s, c, s.procs[c].fd.value)
  {
    assert ClientInv(s, c) && CollectorInv(s, k);
  }

  /** While another process sweeps, all that addTempRoot() has returned for in a client whose
      file is in the directory is among the roots read, and nothing is written to the file. */
  lemma SweepSeesRoots(s: State, k: Pid, c: Pid)
    requires Inv(s) && k in s.procs && s.procs[k].pc.Sweeping? && c in s.procs && c != k && Confirmed(s.procs[c])
    ensures var q := s.procs[c];
      (q.fd.value in s.procs[k].frozen <==> Linked(s, c, q.fd.value))
      && (Linked(s, c, q.fd.value) ==> q.returned <= s.procs[k].tempRoots && !q.pc.Writing? && !q.pc.Downgrading?)
      && (c !in s.unlocked ==> Linked(s, c, q.fd.value))
  {
    assert ClientInv(s, c) && CollectorInv(s, k);
    SweepReadsLinkedFiles(s, k, c);
    var i := s.procs[c].fd.value;
    assert i in s.procs[k].frozen ==> k in s.locks[i];
  }

  /** The step by which addTempRoot(path) returns in process `c`. */
  ghost predicate Returns(s: State, a: Action, c: Pid, path: Path) {
    a.Advance? && a.p == c && c in s.procs && s.procs[c].pc == Downgrading(path)
  }

  /** Process `c` does not begin to exit between `m` and `n`. */
  ghost predicate StillRuns(actions: seq<Action>, m: nat, n: nat, c: Pid)
    requires n <= |actions|
  {
    forall i {:trigger actions[i]} :: m <= i < n ==> actions[i] != Exit(c) && actions[i] != Leave(c)
  }

  lemma {:induction false} ReturnedStays(states: seq<State>, actions: seq<Action>, m: nat, n: nat, c: Pid, path: Path)
    requires Run(states, actions) && m < n < |states|
    requires Returns(states[m], actions[m], c, path) && StillRuns(actions, m, n, c)
    ensures c in states[n].procs && path in states[n].procs[c].returned
    decreases n
  {
    var a := actions[n - 1];
    if m == n - 1 {
      RootIsAdded(states[m], a, c, path);
    } else {
      ReturnedStays(states, actions, m, n - 1, c, path);
      RunKeepsInv(states, actions, n - 1);
      StepKeepsReturned(states[n - 1], a, c);
    }
  }

  lemma RootIsAdded(s: State, a: Action, c: Pid, path: Path)
    requires Enabled(s, a) && Returns(s, a, c, path)
    ensures c in Apply(s, a).procs && path in Apply(s, a).procs[c].returned
  {
    assert Apply(s, a) == Downgrade(s, c);
  }

  lemma StepKeepsReturned(s: State, a: Action, c: Pid)
    requires Inv(s) && Enabled(s, a) && c in s.procs && a != Exit(c) && a != Leave(c)
    ensures c in Apply(s, a).procs && s.procs[c].returned <= Apply(s, a).procs[c].returned
  {
    if a.Advance? {
      if TouchesFiles(s.procs[a.p].pc) {
        FileStepKeepsInv(s, a.p, a.inode);
      } else if ClientPc(s.procs[a.p].pc) {
        ClientStepKeepsInv(s, a.p, a.inode, a.name);
      } else {
        CollectorStepKeepsInv(s, a.p, a.inode, a.name);
      }
    }
  }

  // Clients that collect themselves

  /** Inside collectGarbage(). */
  predicate CollectorPc(pc: Pc) {
    pc.WantGcWrite? || pc.Listing? || Collecting(pc) || pc.Unfreezing?
  }

  /** Process `c` has a temporary roots file, and collects or has dropped its own lock. */
  predicate Suspect(s: State, c: Pid) {
    c in s.unlocked || (c in s.procs && s.procs[c].fd.Some? && CollectorPc(s.procs[c].pc))
  }

  /** From `s` to `t` process `p` has neither changed process `c` nor its lock. */
  predicate LeavesAlone(s: State, t: State, c: Pid) {
    (c in t.unlocked ==> c in s.unlocked) && (c in t.procs <==> c in s.procs) && (c in s.procs ==> t.procs[c] == s.procs[c])
  }

  lemma ClientLeavesAlone(s: State, p: Pid, inode: Inode, name: Pid, c: Pid)
    requires Enabled(s, Advance(p, inode, name)) && c != p && ClientPc(s.procs[p].pc)
    ensures LeavesAlone(s, Step(s, p, inode, name), c)
  {
  }

  lemma CollectorLeavesAlone(s: State, p: Pid, inode: Inode, name: Pid, c: Pid)
    requires Enabled(s, Advance(p, inode, name)) && c != p && !ClientPc(s.procs[p].pc)
    ensures LeavesAlone(s, Step(s, p, inode, name), c)
  {
  }

  lemma OwnClientStepSuspects(s: State, c: Pid, inode: Inode, name: Pid)
    requires Enabled(s, Advance(c, inode, name)) && Suspect(Step(s, c, inode, name), c) && ClientPc(s.procs[c].pc)
    ensures Suspect(s, c)
  {
  }

  lemma OwnCollectorStepSuspects(s: State, c: Pid, inode: Inode, name: Pid)
    requires Enabled(s, Advance(c, inode, name)) && Suspect(Step(s, c, inode, name), c) && !ClientPc(s.procs[c].pc)
    ensures Suspect(s, c)
  {
  }

  lemma StepSuspects(s: State, a: Action, c: Pid)
    requires Enabled(s, a) && Suspect(Apply(s, a), c)
    ensures a != Exit(c) && a != Leave(c)
    ensures Suspect(s, c) || (a == Collect(c) && s.procs[c].fd.Some?)
  {
    if a.Advance? {
      if a.p == c && ClientPc(s.procs[c].pc) {
        OwnClientStepSuspects(s, c, a.inode, a.name);
      } else if a.p == c {
        OwnCollectorStepSuspects(s, c, a.inode, a.name);
      } else if ClientPc(s.procs[a.p].pc) {
        ClientLeavesAlone(s, a.p, a.inode, a.name, c);
      } else {
        CollectorLeavesAlone(s, a.p, a.inode, a.name, c);
      }
    }
  }

  /** Before step `n` the process that runs as `c`, and has not begun to exit, has called
      collectGarbage() while it had a temporary roots file. */
  ghost predicate HasCollected(states: seq<State>, actions: seq<Action>, n: nat, c: Pid)
    requires n <= |actions| < |states|
  {
    exists i {:trigger actions[i]} :: 0 <= i < n && actions[i] == Collect(c) && c in states[i].procs && states[i].procs[c].fd.Some?
                                      && StillRuns(actions, i, n, c)
  }

  lemma {:induction false} SuspectHasCollected(states: seq<State>, actions: seq<Action>, n: nat, c: Pid)
    requires Run(states, actions) && n < |states| && Suspect(states[n], c)
    ensures HasCollected(states, actions, n, c)
  {
    if n > 0 {
      var a := actions[n - 1];
      StepSuspects(states[n - 1], a, c);
      if Suspect(states[n - 1], c) {
        SuspectHasCollected(states, actions, n - 1, c);
        var i :| 0 <= i < n - 1 && actions[i] == Collect(c) && c in states[i].procs && states[i].procs[c].fd.Some?
                 && StillRuns(actions, i, n - 1, c);
        assert StillRuns(actions, i, n, c);
      } else {
        assert StillRuns(actions, n - 1, n, c);
      }
    }
  }

  /** What an own collection does to the file of the client: when it is over, the name is gone
      or the client holds no lock on the file. */
  lemma OwnCollectionUnprotects(s: State, p: Pid)
    requires Inv(s) && p in s.procs && s.procs[p].pc.Unfreezing? && s.procs[p].fd.Some?
    ensures var t, i := Unfreeze(s, p), s.procs[p].fd.value;
      t.procs[p].returned == s.procs[p].returned && (Linked(t, p, i) ==> p !in t.locks[i] && p in t.unlocked)
  {
    assert ClientInv(s, p) && CollectorInv(s, p);
  }

  // The main results

  /** Over every run: once addTempRoot(path) has returned in a process that has not begun to
      exit, another process that sweeps has `path` among its roots if the file of the client is
      in the directory; and it is there unless the client has collected itself. */
  lemma RootsSurviveEverySweep(states: seq<State>, actions: seq<Action>, m: nat, n: nat, c: Pid, path: Path, k: Pid)
    requires Run(states, actions) && m < n < |states|
    requires Returns(states[m], actions[m], c, path) && StillRuns(actions, m, n, c)
    requires k in states[n].procs && states[n].procs[k].pc.Sweeping? && k != c
    ensures c in states[n].procs && states[n].procs[c].fd.Some?
    ensures var s := states[n]; var i := s.procs[c].fd.value;
      (i in s.procs[k].frozen <==> Linked(s, c, i))
      && (Linked(s, c, i) ==> path in s.procs[k].tempRoots)
      && (!Linked(s, c, i) ==> HasCollected(states, actions, n, c))
  {
    ReturnedStays(states, actions, m, n, c, path);
    RunKeepsInv(states, actions, n);
    assert ClientInv(states[n], c);
    SweepSeesRoots(states[n], k, c);
    if c in states[n].unlocked { SuspectHasCollected(states, actions, n, c); }
  }

  /** Over every run: an addTempRoot() returns during a sweep of another process only if the
      file of the client is not in the directory, and so only if the client has collected. */
  lemma NoRootAddedDuringSweep(states: seq<State>, actions: seq<Action>, n: nat, c: Pid, path: Path, k: Pid)
    requires Run(states, actions) && n < |actions| && Returns(states[n], actions[n], c, path)
    requires k in states[n].procs && states[n].procs[k].pc.Sweeping? && k != c
    ensures states[n].procs[c].fd.Some? && !Linked(states[n], c, states[n].procs[c].fd.value)
    ensures HasCollected(states, actions, n, c)
  {
    RunKeepsInv(states, actions, n);
    assert ClientInv(states[n], c);
    SweepSeesRoots(states[n], k, c);
    SuspectHasCollected(states, actions, n, c);
  }

  /** Over every run: what a client has rooted that has not begun to exit keeps its whole
      closure through the sweep of another process, unless the client has collected itself. */
  lemma RootedClosureSurvives(states: seq<State>, actions: seq<Action>, m: nat, n: nat, c: Pid, path: Path, k: Pid,
                              first: Db, firstFiles: map<Path, GarbageCollector.FileType>,
                              db: Db, files: map<Path, GarbageCollector.FileType>,
                              ko: bool, kd: bool, roots: set<Path>, q: Path)
    requires Run(states, actions) && m < n < |states|
    requires Returns(states[m], actions[m], c, path) && StillRuns(actions, m, n, c) && !HasCollected(states, actions, n, c)
    requires k in states[n].procs && states[n].procs[k].pc.Sweeping? && k != c
    requires states[n].procs[k].tempRoots <= roots
    requires Closed(first) && GarbageCollector.NothingLiveLost(first, firstFiles, db, files, ko, kd, roots)
    requires path in first && Reach(RefGraph(first), path, q)
    ensures q in db && db[q] == first[q]
  {
    RootsSurviveEverySweep(states, actions, m, n, c, path, k);
    GarbageCollector.RootKeepsClosure(first, firstFiles, db, files, ko, kd, roots, path, q);
  }

  /** Before step `n` addTempRoot(path) has returned in a process other than `k` that has not
      begun to exit and has not collected itself. */
  ghost predicate RootedByOther(states: seq<State>, actions: seq<Action>, n: nat, k: Pid, path: Path)
    requires n <= |actions| < |states|
  {
    exists m: nat, c: Pid {:trigger Returns(states[m], actions[m], c, path)} ::
      m < n && Returns(states[m], actions[m], c, path) && StillRuns(actions, m, n, c) && c != k && !HasCollected(states, actions, n, c)
  }

  /** The collection that process `k` makes at step `n` of a run, with whatever options and
      other roots: every valid path that another process has rooted keeps its whole closure. */
  method CollectInRun(ghost states: seq<State>, ghost actions: seq<Action>, ghost n: nat, ghost k: Pid,
                      tempRoots: set<Path>, db: Db, files: map<Path, GarbageCollector.FileType>, options: GarbageCollector.GCOptions,
                      keepOutputs: bool, keepDerivations: bool, moveToTrash: bool, linksDir: Path, trashDir: Path,
                      permanentRoots: set<Path>, additionalRoots: set<Path>, entries: seq<Path>)
    returns (outcome: GarbageCollector.Outcome, after: Db)
    requires Run(states, actions) && n < |states| && k in states[n].procs && states[n].procs[k].pc.Sweeping?
    requires tempRoots == states[n].procs[k].tempRoots
    requires Closed(db) && Acyclic(RefGraph(db))
    ensures forall path, q :: RootedByOther(states, actions, n, k, path) && path in db && Reach(RefGraph(db), path, q) ==>
      q in db && q in after && after[q] == db[q]
  {
    var gc := new GarbageCollector.GCState(db, files, options, keepOutputs, keepDerivations, moveToTrash, linksDir, trashDir,
                                           permanentRoots, additionalRoots, tempRoots);
    var complete;
    outcome, complete := gc.CollectGarbage(entries);
    after := gc.db;
    forall path, q | RootedByOther(states, actions, n, k, path) && path in db && Reach(RefGraph(db), path, q)
      ensures q in db && q in after && after[q] == db[q]
    {
      var m: nat, c: Pid :| m < n && Returns(states[m], actions[m], c, path) && StillRuns(actions, m, n, c) && c != k
                            && !HasCollected(states, actions, n, c);
      RootedClosureSurvives(states, actions, m, n, c, path, k, db, files, after, gc.files,
                            gc.gcKeepOutputs, gc.gcKeepDerivations, gc.roots, q);
    }
  }
}
