/** The lock-file protocol of PathLocks (nix/libstore/pathlocks.cc) as an interleaved step
    system over any number of processes, each with any number of PathLocks objects.

    A lock file is known by the path it locks, to which its name adds ".lock", while it is in
    the directory, and by its inode while it is open.  An exclusive fcntl() lock belongs to a process; releasing may delete the file,
    first its name and then, by a one-byte token, for those who already wait on the inode. */
module LockFiles {
  import opened ByteStrings
  import opened Wrappers

  type Path = string
  type Pid = int
  type Inode = int
  type Obj = int

  datatype LockFile = LockFile(path: Path, stale: bool)

  /** An entry of PathLocks::fds with the object it belongs to. */
  datatype FD = FD(obj: Obj, inode: Inode, path: Path)

  /** How the last call came back: lockPaths() with true, or with the error that the process
      has a lock itself; unlock(), with which also a lockPaths() that returns false ends. */
  datatype Reply = NoReply | Locked | SelfHeld | Released

  datatype Pc =
    | Idle(reply: Reply)
    // lockPaths(); `todo` is what is left of the sorted paths
    | Next(obj: Obj, todo: seq<Path>, wait: bool)
    | Opening(obj: Obj, todo: seq<Path>, wait: bool, stale: Option<Inode>)
    | TryLock(obj: Obj, todo: seq<Path>, wait: bool, inode: Inode)
    | Blocked(obj: Obj, todo: seq<Path>, wait: bool, inode: Inode)
    | Statting(obj: Obj, todo: seq<Path>, wait: bool, inode: Inode)
    // unlock(), with the object's deletePaths
    | Unlocking(obj: Obj, delete: bool)
    | Token(obj: Obj, fd: FD)
    | Closing(obj: Obj, delete: bool, fd: FD)

  datatype Proc = Proc(pc: Pc, held: set<FD>, lockedPaths: set<Path>)

  datatype State = State(procs: map<Pid, Proc>, dir: map<Path, Inode>, files: map<Inode, LockFile>, locks: map<Inode, Pid>)

  datatype Action =
    | Spawn(p: Pid)
    | Exit(p: Pid)
    | LockPaths(p: Pid, obj: Obj, paths: set<Path>, wait: bool)
    | Unlock(p: Pid, obj: Obj, delete: bool)
    | Advance(p: Pid, inode: Inode, fd: FD, delete: bool)  // a step inside a call, with what it needs from outside

  const INITIAL := State(map[], map[], map[], map[])

  predicate Free(s: State, i: Inode, p: Pid) {
    i in s.locks ==> s.locks[i] == p
  }

  predicate HeldBy(held: set<FD>, obj: Obj, fd: FD) {
    fd in held && fd.obj == obj
  }

  ghost predicate Enabled(s: State, a: Action) {
    match a
    case Spawn(p) => p !in s.procs
    case Exit(p) => p in s.procs && !s.procs[p].pc.Token?
    case LockPaths(p, obj, _, _) => p in s.procs && s.procs[p].pc.Idle? && forall fd :: !HeldBy(s.procs[p].held, obj, fd)
    case Unlock(p, _, _) => p in s.procs && s.procs[p].pc.Idle?
    case Advance(p, inode, fd, _) =>
      p in s.procs &&
      match s.procs[p].pc
      case Idle(_) => false
      case Opening(_, todo, _, _) => |todo| > 0 && (todo[0] in s.dir || inode !in s.files)
      case TryLock(_, todo, _, _) => |todo| > 0
      case Blocked(_, todo, _, i) => |todo| > 0 && Free(s, i, p)
      case Statting(_, todo, _, i) => |todo| > 0 && i in s.files
      case Unlocking(obj, _) => HeldBy(s.procs[p].held, obj, fd) || forall x :: !HeldBy(s.procs[p].held, obj, x)
      case Token(_, x) => x.inode in s.files
      case _ => true
  }

  function WithPc(s: State, p: Pid, pc: Pc): State
    requires p in s.procs
  {
    s.(procs := s.procs[p := s.procs[p].(pc := pc)])
  }

  /** Closing a descriptor drops the lock of the process on the file. */
  function Close(s: State, i: Inode, p: Pid): State {
    if i in s.locks && s.locks[i] == p then s.(locks := s.locks - {i}) else s
  }

  // The steps of lockPaths()

  function CheckSelf(s: State, p: Pid): State
    requires p in s.procs && s.procs[p].pc.Next?
  {
    var Next(obj, todo, wait) := s.procs[p].pc;
    WithPc(s, p, if todo == [] then Idle(Locked) else if todo[0] in s.procs[p].lockedPaths then Idle(SelfHeld)
                 else Opening(obj, todo, wait, None))
  }

  function Open(s: State, p: Pid, inode: Inode): State
    requires p in s.procs && s.procs[p].pc.Opening? && |s.procs[p].pc.todo| > 0
  {
    var Opening(obj, todo, wait, stale) := s.procs[p].pc;
    var path := todo[0];
    var i := if path in s.dir then s.dir[path] else inode;
    var s1 := if stale.Some? then Close(s, stale.value, p) else s;
    var s2 := if path in s.dir then s1 else s1.(dir := s1.dir[path := i], files := s1.files[i := LockFile(path, false)]);
    s2.(procs := s.procs[p := s.procs[p].(pc := TryLock(obj, todo, wait, i))])
  }

  function TryAcquire(s: State, p: Pid, delete: bool): State
    requires p in s.procs && s.procs[p].pc.TryLock?
  {
    var TryLock(obj, todo, wait, i) := s.procs[p].pc;
    if Free(s, i, p) then WithPc(s.(locks := s.locks[i := p]), p, Statting(obj, todo, wait, i))
    else WithPc(s, p, if wait then Blocked(obj, todo, wait, i) else Unlocking(obj, delete))
  }

  function Acquire(s: State, p: Pid): State
    requires p in s.procs && s.procs[p].pc.Blocked?
  {
    var Blocked(obj, todo, wait, i) := s.procs[p].pc;
    WithPc(s.(locks := s.locks[i := p]), p, Statting(obj, todo, wait, i))
  }

  function CheckSize(s: State, p: Pid): State
    requires p in s.procs && s.procs[p].pc.Statting? && |s.procs[p].pc.todo| > 0 && s.procs[p].pc.inode in s.files
  {
    var q := s.procs[p];
    var Statting(obj, todo, wait, i) := q.pc;
    if s.files[i].stale then WithPc(s, p, Opening(obj, todo, wait, Some(i)))
    else s.(procs := s.procs[p := Proc(Next(obj, todo[1..], wait), q.held + {FD(obj, i, todo[0])}, q.lockedPaths + {todo[0]})])
  }

  // The steps of unlock()

  function Unlink(s: State, p: Pid, fd: FD): State
    requires p in s.procs && s.procs[p].pc.Unlocking?
  {
    var Unlocking(obj, delete) := s.procs[p].pc;
    if !HeldBy(s.procs[p].held, obj, fd) then WithPc(s, p, Idle(Released))
    else if delete then RemoveName(s, p, fd)
    else WithPc(s, p, Closing(obj, delete, fd))
  }

  function RemoveName(s: State, p: Pid, fd: FD): State
    requires p in s.procs && s.procs[p].pc.Unlocking?
  {
    WithPc(s.(dir := s.dir - {fd.path}), p, Token(s.procs[p].pc.obj, fd))
  }

  function WriteToken(s: State, p: Pid): State
    requires p in s.procs && s.procs[p].pc.Token? && s.procs[p].pc.fd.inode in s.files
  {
    var Token(obj, fd) := s.procs[p].pc;
    WithPc(s.(files := s.files[fd.inode := s.files[fd.inode].(stale := true)]), p, Closing(obj, true, fd))
  }

  function CloseFd(s: State, p: Pid): State
    requires p in s.procs && s.procs[p].pc.Closing?
  {
    var q := s.procs[p];
    var Closing(obj, delete, fd) := q.pc;
    Close(s, fd.inode, p).(procs := s.procs[p := Proc(Unlocking(obj, delete), q.held - {fd}, q.lockedPaths - {fd.path})])
  }

  function Step(s: State, p: Pid, inode: Inode, fd: FD, delete: bool): State
    requires p in s.procs && Enabled(s, Advance(p, inode, fd, delete))
  {
    match s.procs[p].pc
    case Next(_, _, _) => CheckSelf(s, p)
    case Opening(_, _, _, _) => Open(s, p, inode)
    case TryLock(_, _, _, _) => TryAcquire(s, p, delete)
    case Blocked(_, _, _, _) => Acquire(s, p)
    case Statting(_, _, _, _) => CheckSize(s, p)
    case Unlocking(_, _) => Unlink(s, p, fd)
    case Token(_, _) => WriteToken(s, p)
    case Closing(_, _, _) => CloseFd(s, p)
  }

  ghost function Apply(s: State, a: Action): State
    requires Enabled(s, a)
  {
    match a
    case Spawn(p) => s.(procs := s.procs[p := Proc(Idle(NoReply), {}, {})])
    case Exit(p) => s.(procs := s.procs - {p}, locks := map i | i in s.locks && s.locks[i] != p :: s.locks[i])
    case LockPaths(p, obj, paths, wait) => WithPc(s, p, Next(obj, Sorted(paths), wait))
    case Unlock(p, obj, delete) => WithPc(s, p, Unlocking(obj, delete))
    case Advance(p, inode, fd, delete) => Step(s, p, inode, fd, delete)
  }

  // The invariant

  predicate Linked(s: State, path: Path, i: Inode) {
    path in s.dir && s.dir[path] == i
  }

  predicate InLockPaths(pc: Pc) {
    pc.Next? || pc.Opening? || AtInode(pc)
  }

  predicate AtInode(pc: Pc) {
    pc.TryLock? || pc.Blocked? || pc.Statting?
  }

  predicate Owns(s: State, i: Inode, p: Pid) {
    i in s.locks && s.locks[i] == p
  }

  ghost predicate BeingDeleted(s: State, i: Inode) {
    exists k :: k in s.procs && s.procs[k].pc.Token? && s.procs[k].pc.fd.inode == i
  }

  ghost predicate Global(s: State) {
    (forall n :: n in s.dir ==> s.dir[n] in s.files && s.files[s.dir[n]] == LockFile(n, false))
    && (forall i :: i in s.locks ==> i in s.files && s.locks[i] in s.procs)
  }

  /** The descriptor whose name unlock() has already taken away. */
  predicate Unnamed(q: Proc, fd: FD) {
    (q.pc.Token? && q.pc.fd == fd) || (q.pc.Closing? && q.pc.delete && q.pc.fd == fd)
  }

  ghost predicate HeldInv(s: State, p: Pid)
    requires p in s.procs
  {
    var q := s.procs[p];
    (forall fd :: fd in q.held ==>
       fd.inode in s.files && s.files[fd.inode].path == fd.path && fd.path in q.lockedPaths
       && Owns(s, fd.inode, p)
       && (Linked(s, fd.path, fd.inode) <==> !Unnamed(q, fd)))
    && (forall a, b :: a in q.held && b in q.held && a.path == b.path ==> a == b)
    && (forall i :: i in s.locks && s.locks[i] == p ==>
       (exists fd :: fd in q.held && fd.inode == i)
       || (q.pc.Statting? && q.pc.inode == i) || (q.pc.Opening? && q.pc.stale == Some(i)))
  }

  ghost predicate PcInv(s: State, p: Pid)
    requires p in s.procs
  {
    var q := s.procs[p];
    (InLockPaths(q.pc) ==>
       Ascending(q.pc.todo)
       && forall fd :: HeldBy(q.held, q.pc.obj, fd) ==> |q.pc.todo| > 0 ==> Lt(fd.path, q.pc.todo[0]))
    && (q.pc.Opening? || AtInode(q.pc) ==> |q.pc.todo| > 0 && q.pc.todo[0] !in q.lockedPaths)
    && (q.pc.Opening? && q.pc.stale.Some? ==> q.pc.stale.value in s.files && s.files[q.pc.stale.value].stale)
    && (AtInode(q.pc) ==>
          var i := q.pc.inode;
          i in s.files && s.files[i].path == q.pc.todo[0]
          && (Linked(s, q.pc.todo[0], i) || s.files[i].stale || BeingDeleted(s, i)))
    && (q.pc.Statting? ==> Owns(s, q.pc.inode, p))
    && (q.pc.Token? ==> HeldBy(q.held, q.pc.obj, q.pc.fd))
    && (q.pc.Closing? ==> HeldBy(q.held, q.pc.obj, q.pc.fd) && (q.pc.delete ==> q.pc.fd.inode in s.files && s.files[q.pc.fd.inode].stale))
  }

  ghost predicate Inv(s: State) {
    Global(s) && forall p :: p in s.procs ==> HeldInv(s, p) && PcInv(s, p)
  }

  /** From `s` to `t` process `p` has changed nothing but itself and its own locks. */
  ghost predicate OwnOnly(s: State, t: State, p: Pid) {
    t.procs.Keys == s.procs.Keys && (forall r :: r in s.procs && r != p ==> t.procs[r] == s.procs[r])
    && t.dir == s.dir && t.files == s.files
    && (forall i :: i in s.locks && s.locks[i] != p ==> i in t.locks && t.locks[i] == s.locks[i])
    && (forall i :: i in t.locks && t.locks[i] != p ==> i in s.locks && s.locks[i] == t.locks[i])
  }

  lemma DeletionGoesOn(s: State, t: State, p: Pid, i: Inode)
    requires p in s.procs && !s.procs[p].pc.Token? && BeingDeleted(s, i)
    requires t.procs.Keys == s.procs.Keys && forall r :: r in s.procs && r != p ==> t.procs[r] == s.procs[r]
    ensures BeingDeleted(t, i)
  {
    var k :| k in s.procs && s.procs[k].pc.Token? && s.procs[k].pc.fd.inode == i;
    assert k in t.procs && t.procs[k] == s.procs[k];
  }

  lemma OthersUnaffected(s: State, t: State, p: Pid, r: Pid)
    requires p in s.procs && r in s.procs && r != p && !s.procs[p].pc.Token?
    requires HeldInv(s, r) && PcInv(s, r) && OwnOnly(s, t, p)
    ensures HeldInv(t, r) && PcInv(t, r)
  {
    if AtInode(s.procs[r].pc) && BeingDeleted(s, s.procs[r].pc.inode) { DeletionGoesOn(s, t, p, s.procs[r].pc.inode); }
  }

  /** A file somebody has locked is not being deleted by another process. */
  lemma LockedIsNotDeleted(s: State, p: Pid, i: Inode)
    requires Inv(s) && p in s.procs && !s.procs[p].pc.Token? && Owns(s, i, p)
    ensures !BeingDeleted(s, i)
  {
    if k :| k in s.procs && s.procs[k].pc.Token? && s.procs[k].pc.fd.inode == i {
      assert false;
    }
  }

  // What each step keeps of the process that takes it.

  lemma CheckSelfKeepsOwn(s: State, p: Pid)
    requires Global(s) && p in s.procs && s.procs[p].pc.Next? && HeldInv(s, p) && PcInv(s, p)
    ensures var t := CheckSelf(s, p); Global(t) && HeldInv(t, p) && PcInv(t, p) && OwnOnly(s, t, p)
  {
  }

  lemma OpenKeepsHeld(s: State, p: Pid, inode: Inode)
    requires Global(s) && p in s.procs && s.procs[p].pc.Opening? && HeldInv(s, p) && PcInv(s, p)
    requires s.procs[p].pc.todo[0] in s.dir || inode !in s.files
    ensures HeldInv(Open(s, p, inode), p)
  {
  }

  lemma OpenKeepsOwn(s: State, p: Pid, inode: Inode)
    requires Global(s) && p in s.procs && s.procs[p].pc.Opening? && HeldInv(s, p) && PcInv(s, p)
    requires s.procs[p].pc.todo[0] in s.dir || inode !in s.files
    ensures var t := Open(s, p, inode); Global(t) && HeldInv(t, p) && PcInv(t, p)
  {
    OpenKeepsHeld(s, p, inode);
  }

  lemma TryAcquireKeepsHeld(s: State, p: Pid, delete: bool)
    requires Global(s) && p in s.procs && s.procs[p].pc.TryLock? && HeldInv(s, p) && PcInv(s, p)
    ensures var t := TryAcquire(s, p, delete); Global(t) && HeldInv(t, p) && OwnOnly(s, t, p)
  {
    var t := TryAcquire(s, p, delete);
    if Free(s, s.procs[p].pc.inode, p) {
      assert t.procs[p].pc.Statting?;
    } else {
      assert t.locks == s.locks;
    }
  }

  lemma TryAcquireKeepsPc(s: State, p: Pid, delete: bool)
    requires Global(s) && p in s.procs && s.procs[p].pc.TryLock? && PcInv(s, p)
    ensures PcInv(TryAcquire(s, p, delete), p)
  {
    var i := s.procs[p].pc.inode;
    if BeingDeleted(s, i) { DeletionGoesOn(s, TryAcquire(s, p, delete), p, i); }
  }

  lemma AcquireKeepsOwn(s: State, p: Pid)
    requires Global(s) && p in s.procs && s.procs[p].pc.Blocked? && HeldInv(s, p) && PcInv(s, p)
    requires Free(s, s.procs[p].pc.inode, p)
    ensures var t := Acquire(s, p); Global(t) && HeldInv(t, p) && PcInv(t, p) && OwnOnly(s, t, p)
  {
    var i := s.procs[p].pc.inode;
    if BeingDeleted(s, i) { DeletionGoesOn(s, Acquire(s, p), p, i); }
  }

  lemma CheckSizeKeepsOwn(s: State, p: Pid)
    requires Global(s) && p in s.procs && s.procs[p].pc.Statting? && HeldInv(s, p) && PcInv(s, p)
    requires !BeingDeleted(s, s.procs[p].pc.inode)
    ensures var t := CheckSize(s, p); Global(t) && HeldInv(t, p) && PcInv(t, p) && OwnOnly(s, t, p)
  {
    var q := s.procs[p];
    forall fd | HeldBy(q.held, q.pc.obj, fd) && |q.pc.todo| > 1 ensures Lt(fd.path, q.pc.todo[1]) {
      LtTransitive(fd.path, q.pc.todo[0], q.pc.todo[1]);
    }
  }

  lemma RemoveNameKeepsOwn(s: State, p: Pid, fd: FD)
    requires Global(s) && p in s.procs && s.procs[p].pc.Unlocking? && HeldInv(s, p) && PcInv(s, p)
    requires HeldBy(s.procs[p].held, s.procs[p].pc.obj, fd)
    ensures var t := RemoveName(s, p, fd); Global(t) && HeldInv(t, p) && PcInv(t, p)
  {
  }

  /** Unlocking without deletion, or with nothing left to release. */
  lemma KeepNameKeepsOwn(s: State, p: Pid, fd: FD)
    requires Global(s) && p in s.procs && s.procs[p].pc.Unlocking? && HeldInv(s, p) && PcInv(s, p)
    requires !HeldBy(s.procs[p].held, s.procs[p].pc.obj, fd) || !s.procs[p].pc.delete
    ensures var t := Unlink(s, p, fd); Global(t) && HeldInv(t, p) && PcInv(t, p) && OwnOnly(s, t, p)
  {
    if HeldBy(s.procs[p].held, s.procs[p].pc.obj, fd) {
      assert Unlink(s, p, fd).procs[p].pc.Closing?;
    } else {
      assert Unlink(s, p, fd).procs[p].pc.Idle?;
    }
  }

  lemma WriteTokenKeepsOwn(s: State, p: Pid)
    requires Global(s) && p in s.procs && s.procs[p].pc.Token? && HeldInv(s, p) && PcInv(s, p)
    ensures var t := WriteToken(s, p); Global(t) && HeldInv(t, p) && PcInv(t, p)
  {
  }

  lemma CloseFdKeepsOwn(s: State, p: Pid)
    requires Global(s) && p in s.procs && s.procs[p].pc.Closing? && HeldInv(s, p) && PcInv(s, p)
    ensures var t := CloseFd(s, p); Global(t) && HeldInv(t, p) && PcInv(t, p) && OwnOnly(s, t, p)
  {
  }

  // What the steps that touch the directory or a file keep of the other processes.

  lemma OpenKeepsOthersHeld(s: State, p: Pid, inode: Inode, r: Pid)
    requires Inv(s) && p in s.procs && s.procs[p].pc.Opening? && r in s.procs && r != p
    requires |s.procs[p].pc.todo| > 0 && (s.procs[p].pc.todo[0] in s.dir || inode !in s.files)
    ensures HeldInv(Open(s, p, inode), r)
  {
    assert HeldInv(s, r);
  }

  lemma OpenKeepsOthersPc(s: State, p: Pid, inode: Inode, r: Pid)
    requires Inv(s) && p in s.procs && s.procs[p].pc.Opening? && r in s.procs && r != p
    requires |s.procs[p].pc.todo| > 0 && (s.procs[p].pc.todo[0] in s.dir || inode !in s.files)
    ensures PcInv(Open(s, p, inode), r)
  {
    assert PcInv(s, r);
    var i := if AtInode(s.procs[r].pc) then s.procs[r].pc.inode else 0;
    if BeingDeleted(s, i) { DeletionGoesOn(s, Open(s, p, inode), p, i); }
  }

  lemma RemoveNameKeepsOthersHeld(s: State, p: Pid, fd: FD, r: Pid)
    requires Inv(s) && p in s.procs && s.procs[p].pc.Unlocking? && r in s.procs && r != p
    requires HeldBy(s.procs[p].held, s.procs[p].pc.obj, fd)
    ensures HeldInv(RemoveName(s, p, fd), r)
  {
    assert HeldInv(s, p) && HeldInv(s, r);
  }

  lemma RemoveNameKeepsOthersPc(s: State, p: Pid, fd: FD, r: Pid)
    requires Inv(s) && p in s.procs && s.procs[p].pc.Unlocking? && r in s.procs && r != p
    requires HeldBy(s.procs[p].held, s.procs[p].pc.obj, fd)
    ensures PcInv(RemoveName(s, p, fd), r)
  {
    var t := RemoveName(s, p, fd);
    assert HeldInv(s, p) && PcInv(s, r);
    var i := if AtInode(s.procs[r].pc) then s.procs[r].pc.inode else 0;
    if BeingDeleted(s, i) { DeletionGoesOn(s, t, p, i); }
    assert BeingDeleted(t, fd.inode) by { assert t.procs[p].pc == Token(s.procs[p].pc.obj, fd); }
  }

  lemma WriteTokenKeepsOthers(s: State, p: Pid, r: Pid)
    requires Inv(s) && p in s.procs && s.procs[p].pc.Token? && s.procs[p].pc.fd.inode in s.files && r in s.procs && r != p
    ensures HeldInv(WriteToken(s, p), r) && PcInv(WriteToken(s, p), r)
  {
    var t := WriteToken(s, p);
    assert HeldInv(s, p) && PcInv(s, p) && HeldInv(s, r) && PcInv(s, r);
    if AtInode(s.procs[r].pc) && BeingDeleted(s, s.procs[r].pc.inode) {
      var i := s.procs[r].pc.inode;
      var k :| k in s.procs && s.procs[k].pc.Token? && s.procs[k].pc.fd.inode == i;
      if k != p { assert t.procs[k] == s.procs[k]; }
    }
  }

  lemma OwnOnlyKeepsInv(s: State, t: State, p: Pid)
    requires Inv(s) && p in s.procs && !s.procs[p].pc.Token? && OwnOnly(s, t, p)
    requires Global(t) && HeldInv(t, p) && PcInv(t, p)
    ensures Inv(t)
  {
    forall r | r in t.procs && r != p ensures HeldInv(t, r) && PcInv(t, r) {
      OthersUnaffected(s, t, p, r);
    }
  }

  lemma AdvanceKeepsInv(s: State, p: Pid, inode: Inode, fd: FD, delete: bool)
    requires Inv(s) && Enabled(s, Advance(p, inode, fd, delete))
    ensures Inv(Step(s, p, inode, fd, delete))
  {
    var t := Step(s, p, inode, fd, delete);
    match s.procs[p].pc {
      case Next(_, _, _) =>
        CheckSelfKeepsOwn(s, p);
        OwnOnlyKeepsInv(s, t, p);
      case Opening(_, _, _, _) =>
        OpenKeepsOwn(s, p, inode);
        forall r | r in t.procs && r != p ensures HeldInv(t, r) && PcInv(t, r) {
          OpenKeepsOthersHeld(s, p, inode, r);
          OpenKeepsOthersPc(s, p, inode, r);
        }
      case TryLock(_, _, _, _) =>
        TryAcquireKeepsHeld(s, p, delete);
        TryAcquireKeepsPc(s, p, delete);
        OwnOnlyKeepsInv(s, t, p);
      case Blocked(_, _, _, _) =>
        AcquireKeepsOwn(s, p);
        OwnOnlyKeepsInv(s, t, p);
      case Statting(_, _, _, i) =>
        LockedIsNotDeleted(s, p, i);
        CheckSizeKeepsOwn(s, p);
        OwnOnlyKeepsInv(s, t, p);
      case Unlocking(_, _) =>
        if HeldBy(s.procs[p].held, s.procs[p].pc.obj, fd) && s.procs[p].pc.delete {
          RemoveNameKeepsOwn(s, p, fd);
          forall r | r in t.procs && r != p ensures HeldInv(t, r) && PcInv(t, r) {
            RemoveNameKeepsOthersHeld(s, p, fd, r);
            RemoveNameKeepsOthersPc(s, p, fd, r);
          }
        } else {
          KeepNameKeepsOwn(s, p, fd);
          OwnOnlyKeepsInv(s, t, p);
        }
      case Token(_, _) =>
        WriteTokenKeepsOwn(s, p);
        forall r | r in t.procs && r != p ensures HeldInv(t, r) && PcInv(t, r) { WriteTokenKeepsOthers(s, p, r); }
      case Closing(_, _, _) =>
        CloseFdKeepsOwn(s, p);
        OwnOnlyKeepsInv(s, t, p);
    }
  }

  lemma StillBeingDeleted(s: State, t: State, i: Inode)
    requires BeingDeleted(s, i) && forall k :: k in s.procs && s.procs[k].pc.Token? ==> k in t.procs && t.procs[k] == s.procs[k]
    ensures BeingDeleted(t, i)
  {
    var k :| k in s.procs && s.procs[k].pc.Token? && s.procs[k].pc.fd.inode == i;
    assert k in t.procs && t.procs[k] == s.procs[k];
  }

  lemma SpawnKeepsInv(s: State, p: Pid)
    requires Inv(s) && Enabled(s, Spawn(p))
    ensures Inv(Apply(s, Spawn(p)))
  {
    var t := Apply(s, Spawn(p));
    forall r | r in s.procs ensures HeldInv(t, r) && PcInv(t, r) {
      if AtInode(s.procs[r].pc) && BeingDeleted(s, s.procs[r].pc.inode) { StillBeingDeleted(s, t, s.procs[r].pc.inode); }
    }
  }

  lemma ExitKeepsInv(s: State, p: Pid)
    requires Inv(s) && Enabled(s, Exit(p))
    ensures Inv(Apply(s, Exit(p)))
  {
    var t := Apply(s, Exit(p));
    forall r | r in t.procs ensures HeldInv(t, r) && PcInv(t, r) {
      if AtInode(s.procs[r].pc) && BeingDeleted(s, s.procs[r].pc.inode) { StillBeingDeleted(s, t, s.procs[r].pc.inode); }
    }
  }

  lemma CallKeepsOwn(s: State, p: Pid, pc: Pc)
    requires Global(s) && p in s.procs && s.procs[p].pc.Idle? && HeldInv(s, p) && PcInv(s, p)
    requires pc.Unlocking? || (pc.Next? && Ascending(pc.todo) && forall fd :: !HeldBy(s.procs[p].held, pc.obj, fd))
    ensures var t := WithPc(s, p, pc); Global(t) && HeldInv(t, p) && PcInv(t, p) && OwnOnly(s, t, p)
  {
  }

  /** Every step of every process keeps the invariant. */
  lemma StepKeepsInv(s: State, a: Action)
    requires Inv(s) && Enabled(s, a)
    ensures Inv(Apply(s, a))
  {
    match a {
      case LockPaths(p, obj, paths, wait) =>
        CallKeepsOwn(s, p, Next(obj, Sorted(paths), wait));
        OwnOnlyKeepsInv(s, Apply(s, a), p);
      case Unlock(p, obj, delete) =>
        CallKeepsOwn(s, p, Unlocking(obj, delete));
        OwnOnlyKeepsInv(s, Apply(s, a), p);
      case Advance(p, inode, fd, delete) => AdvanceKeepsInv(s, p, inode, fd, delete);
      case Spawn(p) => SpawnKeepsInv(s, p);
      case Exit(p) => ExitKeepsInv(s, p);
    }
  }

  // Runs

  ghost predicate Run(states: seq<State>, actions: seq<Action>) {
    |states| == |actions| + 1 && states[0] == INITIAL
    && forall i {:trigger actions[i]} :: 0 <= i < |actions| ==> Enabled(states[i], actions[i]) && states[i + 1] == Apply(states[i], actions[i])
  }

  lemma {:induction false} RunKeepsInv(states: seq<State>, actions: seq<Action>, n: nat)
    requires Run(states, actions) && n < |states|
    ensures Inv(states[n])
  {
    if n > 0 {
      RunKeepsInv(states, actions, n - 1);
      StepKeepsInv(states[n - 1], actions[n - 1]);
    }
  }

  /** The object has acquired the lock on the path and has not begun to release it. */
  predicate Inside(s: State, p: Pid, fd: FD) {
    p in s.procs && fd in s.procs[p].held
    && !(s.procs[p].pc.Unlocking? && s.procs[p].pc.obj == fd.obj)
    && !(s.procs[p].pc.Token? && s.procs[p].pc.obj == fd.obj)
    && !(s.procs[p].pc.Closing? && s.procs[p].pc.obj == fd.obj)
  }

  /** Over every run: at most one object of one process is inside for a path; the file it
      has locked is the one the lock name denotes, and its size is zero. */
  lemma MutualExclusion(states: seq<State>, actions: seq<Action>, n: nat, p: Pid, a: FD, q: Pid, b: FD)
    requires Run(states, actions) && n < |states|
    requires Inside(states[n], p, a) && Inside(states[n], q, b) && a.path == b.path
    ensures p == q && a == b
    ensures Linked(states[n], a.path, a.inode) && Owns(states[n], a.inode, p)
    ensures a.inode in states[n].files && !states[n].files[a.inode].stale
  {
    RunKeepsInv(states, actions, n);
    assert HeldInv(states[n], p) && HeldInv(states[n], q);
  }

  /** `p` waits for a lock that `q` has. */
  predicate WaitsFor(s: State, p: Pid, q: Pid) {
    p in s.procs && q in s.procs && s.procs[p].pc.Blocked? && p != q && Owns(s, s.procs[p].pc.inode, q)
  }

  /** The process holds no locks but those of the call it is in. */
  ghost predicate HoldsNoOther(s: State, p: Pid) {
    p in s.procs && s.procs[p].pc.Blocked? && forall fd :: fd in s.procs[p].held ==> fd.obj == s.procs[p].pc.obj
  }

  /** The path a blocked process waits for. */
  function Target(s: State, p: Pid): Path {
    if p in s.procs && s.procs[p].pc.Blocked? && |s.procs[p].pc.todo| > 0 then s.procs[p].pc.todo[0] else ""
  }

  /** Who is waited for waits for a greater path. */
  lemma WaitsUpward(s: State, p: Pid, q: Pid)
    requires Inv(s) && WaitsFor(s, p, q) && HoldsNoOther(s, q)
    ensures Lt(Target(s, p), Target(s, q))
  {
    var i := s.procs[p].pc.inode;
    assert PcInv(s, p) && HeldInv(s, q) && PcInv(s, q);
    var fd :| fd in s.procs[q].held && fd.inode == i;
    assert HeldBy(s.procs[q].held, s.procs[q].pc.obj, fd);
  }

  /** Each process of `w` waits for the next one. */
  ghost predicate WaitChain(s: State, w: seq<Pid>) {
    |w| > 1 && forall k {:trigger w[k]} :: 0 <= k < |w| - 1 ==> WaitsFor(s, w[k], w[k + 1]) && HoldsNoOther(s, w[k + 1])
  }

  lemma {:induction false} WaitChainAscends(s: State, w: seq<Pid>)
    requires Inv(s) && WaitChain(s, w)
    ensures Lt(Target(s, w[0]), Target(s, w[|w| - 1]))
    decreases |w|
  {
    WaitsUpward(s, w[0], w[1]);
    if |w| > 2 {
      var v := w[1..];
      assert WaitChain(s, v) by {
        assert forall k {:trigger v[k]} :: 0 <= k < |v| ==> v[k] == w[k + 1];
      }
      WaitChainAscends(s, v);
      LtTransitive(Target(s, w[0]), Target(s, w[1]), Target(s, w[|w| - 1]));
    }
  }

  /** Over every run: processes that hold no other locks never wait for each other in a circle. */
  lemma NoDeadlock(states: seq<State>, actions: seq<Action>, n: nat, w: seq<Pid>)
    requires Run(states, actions) && n < |states| && WaitChain(states[n], w)
    ensures w[0] != w[|w| - 1]
  {
    RunKeepsInv(states, actions, n);
    WaitChainAscends(states[n], w);
    LtIrreflexive(Target(states[n], w[0]));
  }
}
