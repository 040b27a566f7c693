/** The registry operations of the multi-process server: `UserManager` on shared text under a semaphore,
    run one critical section at a time. `Interleaving` runs many processes at once. */
module SharedRegistry {
  import opened Text
  import opened RegistryText

  // ---------- what the operations do to the set of users ----------

  predicate Taken(m: Registry, name: string) {
    exists i | i in m :: m[i].name == name
  }

  predicate HasPid(m: Registry, pid: nat) {
    exists i | i in m :: m[i].pid == pid
  }

  /** The id under which a pid is registered. */
  ghost function IdOf(m: Registry, pid: nat): (i: nat)
    requires HasPid(m, pid)
    ensures i in m && m[i].pid == pid
  {
    var i :| i in m && m[i].pid == pid;
    i
  }

  type Token = w: string | IsWord(w) witness "w"

  /** The address of a connection as it is recorded: `inet_ntoa`, a colon and the port. */
  function Peer(host: Ip, port: nat): Token {
    var s := DottedQuad(host) + ":" + Decimal(port);
    PeerIsWord(host, port);
    s
  }

  lemma PeerIsWord(host: Ip, port: nat)
    ensures IsWord(DottedQuad(host) + ":" + Decimal(port))
  {
    assert forall n: nat, i | 0 <= i < |Decimal(n)| :: IsDigit(Decimal(n)[i]);
  }

  /** The four bytes of the address as decimals with dots, a colon, and the port. */
  lemma PeerOfBytes(host: Ip, port: nat, a: nat, b: nat, c: nat, d: nat)
    requires HasBytes(host, a, b, c, d)
    ensures Peer(host, port)
         == Decimal(a) + ("." + (Decimal(b) + ("." + (Decimal(c) + ("." + Decimal(d)))))) + (":" + Decimal(port))
  {
    QuadOfAddress(host, a, b, c, d);
    hide DottedQuad, Decimal, HasBytes;
    Assoc(DottedQuad(host), ":", Decimal(port));
  }

  function Added(m: Registry, pid: nat, fd: nat, ipAddr: string): Registry {
    var id := LowestFree(m.Keys);
    m[id := User(id, pid, fd, ipAddr, "")]
  }

  ghost function Removed(m: Registry, pid: nat): Registry {
    if HasPid(m, pid) then m - {IdOf(m, pid)} else m
  }

  predicate CanRename(m: Registry, name: string) {
    name != "" && !Taken(m, name)
  }

  function Renamed(m: Registry, id: nat, name: string): Registry
    requires id in m
  {
    if CanRename(m, name) then m[id := m[id].(name := name)] else m
  }

  lemma AddedGood(m: Registry, pid: nat, fd: nat, ipAddr: string)
    requires Good(m) && !HasPid(m, pid) && IsWord(ipAddr)
    ensures Good(Added(m, pid, fd, ipAddr))
  {
  }

  lemma RemovedGood(m: Registry, pid: nat)
    requires Good(m)
    ensures Good(Removed(m, pid)) && !HasPid(Removed(m, pid), pid)
  {
    if HasPid(m, pid) {
      var i := IdOf(m, pid);
      forall j | j in m && j != i ensures m[j].pid != pid { assert Apart(m[i], m[j]); }
    }
  }

  lemma RenamedGood(m: Registry, id: nat, name: string)
    requires Good(m) && id in m && NoSpace(name)
    ensures Good(Renamed(m, id, name))
  {
    if CanRename(m, name) {
      var m' := Renamed(m, id, name);
      forall i, j | i in m' && j in m' && i != j ensures Apart(m'[i], m'[j]) {
        assert Apart(m[i], m[j]);
      }
    }
  }

  // ---------- the same operations on the indexed tables ----------

  function AddUser(t: Tables, pid: nat, fd: nat, ipAddr: string): Tables {
    var u := User(LowestFree(t.ids.Keys), pid, fd, ipAddr, "");
    t.(ids := t.ids[u.id := u], pids := t.pids[pid := u])
  }

  function RemoveUser(t: Tables, pid: nat): Tables {
    if pid !in t.pids then t
    else
      var u := t.pids[pid];
      Tables(t.ids - {u.id}, t.pids - {pid}, if u.name != "" then t.names - {u.name} else t.names)
  }

  predicate AcceptsName(t: Tables, name: string) {
    name != "" && name !in t.names
  }

  function RenameUser(t: Tables, id: nat, name: string): Tables
    requires id in t.ids
  {
    if !AcceptsName(t, name) then t
    else
      var u := t.ids[id];
      var u' := u.(name := name);
      Tables(t.ids[u'.id := u'], t.pids[u'.pid := u'], (t.names - {u.name})[name := u'])
  }

  /** The other users' ids, pids and names are not this user's. */
  lemma OthersApart(m: Registry, id: nat)
    requires Good(m) && id in m
    ensures m[id].id == id
    ensures forall i | i in m && i != id ::
              m[i].id == i && m[i].pid != m[id].pid && (m[i].name != "" ==> m[i].name != m[id].name)
  {
    forall i | i in m && i != id
      ensures m[i].id == i && m[i].pid != m[id].pid && (m[i].name != "" ==> m[i].name != m[id].name)
    {
      assert Apart(m[i], m[id]) && Printable(i, m[i]);
    }
    assert Printable(id, m[id]);
  }

  lemma AddUserAdds(t: Tables, pid: nat, fd: nat, ipAddr: string)
    requires Indexed(t) && Good(t.ids) && !HasPid(t.ids, pid)
    ensures AddUser(t, pid, fd, ipAddr).ids == Added(t.ids, pid, fd, ipAddr)
    ensures Indexed(AddUser(t, pid, fd, ipAddr))
  {
    var u := User(LowestFree(t.ids.Keys), pid, fd, ipAddr, "");
    forall i | i in t.ids ensures t.ids[i].id == i && Apart(t.ids[i], u) && Apart(u, t.ids[i]) {
      assert Printable(i, t.ids[i]);
    }
    InsertIndexed(t, u);
    assert AddUser(t, pid, fd, ipAddr) == Insert(t, u);
  }

  /** The pid map knows exactly the registered pids. */
  lemma PidsAgree(t: Tables, pid: nat)
    requires Indexed(t) && Good(t.ids)
    ensures pid in t.pids <==> HasPid(t.ids, pid)
    ensures pid in t.pids ==> t.pids[pid].id == IdOf(t.ids, pid) && t.pids[pid] == t.ids[IdOf(t.ids, pid)]
    ensures pid in t.pids ==> t.pids[pid].pid == pid
  {
    if HasPid(t.ids, pid) {
      var i := IdOf(t.ids, pid);
      assert t.ids[i].pid in t.pids;
      assert Printable(i, t.ids[i]);
    }
  }

  /** The name map knows exactly the names in use. */
  lemma NamesAgree(t: Tables, name: string)
    requires Indexed(t) && name != ""
    ensures name in t.names <==> Taken(t.ids, name)
  {
  }

  function Drop(t: Tables, u: User): Tables {
    Tables(t.ids - {u.id}, t.pids - {u.pid}, t.names - {u.name})
  }

  lemma DropIndexed(t: Tables, id: nat)
    requires Indexed(t) && id in t.ids && t.ids[id].id == id
    requires forall i | i in t.ids && i != id ::
               t.ids[i].pid != t.ids[id].pid && (t.ids[i].name != "" ==> t.ids[i].name != t.ids[id].name)
    ensures Indexed(Drop(t, t.ids[id]))
  {
    var u := t.ids[id];
    var t' := Drop(t, u);
    forall p | p in t'.pids ensures t'.pids[p].id in t'.ids {
      assert t.pids[p].pid == p;
    }
    forall n | n in t'.names ensures t'.names[n].id in t'.ids {
      assert t.names[n].name == n;
    }
  }

  lemma RemoveUserRemoves(t: Tables, pid: nat)
    requires Indexed(t) && Good(t.ids)
    ensures RemoveUser(t, pid).ids == Removed(t.ids, pid)
    ensures Indexed(RemoveUser(t, pid))
  {
    hide Good, Indexed;
    PidsAgree(t, pid);
    if pid in t.pids {
      var u := t.pids[pid];
      OthersApart(t.ids, u.id);
      DropIndexed(t, u.id);
      NoEmptyName(t);
      assert u.name == "" ==> t.names - {u.name} == t.names;
    }
  }

  lemma NoEmptyName(t: Tables)
    requires Indexed(t)
    ensures "" !in t.names
  {
  }

  /** Renaming is removing the user and inserting it again under its new name. */
  lemma RenameIsReinsert(t: Tables, id: nat, name: string)
    requires id in t.ids && t.ids[id].id == id && AcceptsName(t, name)
    ensures var u := t.ids[id]; RenameUser(t, id, name) == Insert(Drop(t, u), u.(name := name))
    ensures RenameUser(t, id, name).ids == t.ids[id := t.ids[id].(name := name)]
  {
    var u := t.ids[id];
    var u' := u.(name := name);
    assert (t.ids - {id})[id := u'] == t.ids[id := u'];
    assert (t.pids - {u.pid})[u.pid := u'] == t.pids[u.pid := u'];
  }

  lemma ReinsertIndexed(t: Tables, id: nat, name: string)
    requires Indexed(t) && id in t.ids && AcceptsName(t, name)
    requires forall i | i in t.ids :: t.ids[i].id == i
    requires forall i | i in t.ids && i != id ::
               t.ids[i].pid != t.ids[id].pid && (t.ids[i].name != "" ==> t.ids[i].name != t.ids[id].name)
    ensures var u := t.ids[id]; Indexed(Insert(Drop(t, u), u.(name := name)))
  {
    DropIndexed(t, id);
    InsertIndexed(Drop(t, t.ids[id]), t.ids[id].(name := name));
  }

  lemma RenameUserRenames(t: Tables, id: nat, name: string)
    requires Indexed(t) && Good(t.ids) && id in t.ids
    ensures AcceptsName(t, name) <==> CanRename(t.ids, name)
    ensures RenameUser(t, id, name).ids == Renamed(t.ids, id, name)
    ensures Indexed(RenameUser(t, id, name))
  {
    if name != "" { NamesAgree(t, name); }
    OthersApart(t.ids, id);
    if AcceptsName(t, name) {
      RenameIsReinsert(t, id, name);
      ReinsertIndexed(t, id, name);
    }
  }

  // ---------- UserManager ----------

  /** The shared segment and the semaphore that guards it. */
  class SharedMemory {
    var text: string
    var semaphore: nat

    /** `setupSharedMemory`: the semaphore is created at 0, signalled once, and an empty registry written. */
    constructor ()
      ensures semaphore == 1 && text == Print(map[])
    {
      semaphore := 0 + 1;
      text := "";
    }

    /** Returns once the semaphore can be taken; a process that finds it at 0 is held back until then. */
    method Wait()
      requires semaphore > 0
      modifies this`semaphore
      ensures semaphore == old(semaphore) - 1
    {
      semaphore := semaphore - 1;
    }

    method Signal()
      modifies this`semaphore
      ensures semaphore == old(semaphore) + 1
    {
      semaphore := semaphore + 1;
    }
  }

  /** The print of a registry begins with the line of its least id. */
  lemma PrintLeast(before: string, m: Registry)
    requires m != map[]
    ensures var id := Least(m.Keys);
            before + Print(m) == (before + (PrintUser(m[id]) + "\n")) + Print(m - {id})
  {
    hide PrintUser, Least;
    var id := Least(m.Keys);
    var first, rest := PrintUser(m[id]), Print(m - {id});
    assert Print(m) == first + ("\n" + rest);
    assert before + (first + ("\n" + rest)) == (before + (first + "\n")) + rest;
  }

  class UserManager {
    const shm: SharedMemory
    var idUserMap: map<nat, User>
    var pidUserMap: map<nat, User>
    var nameUserMap: map<string, User>

    constructor (shm: SharedMemory)
      ensures this.shm == shm
    {
      this.shm := shm;
      idUserMap, pidUserMap, nameUserMap := map[], map[], map[];
    }

    function Maps(): Tables
      reads this
    {
      Tables(idUserMap, pidUserMap, nameUserMap)
    }

    method ReadFromSharedMemory()
      modifies this
      ensures Maps() == Read(shm.text)
    {
      idUserMap, pidUserMap, nameUserMap := map[], map[], map[];
      var rest := shm.text;
      while rest != ""
        invariant Load(Lines(rest), Maps()) == Read(shm.text)
        decreases |rest|
      {
        var line := Line(rest);
        rest := if |line| == |rest| then "" else rest[|line| + 1..];
        var newUser := ReadUser(line);
        idUserMap := idUserMap[newUser.id := newUser];
        pidUserMap := pidUserMap[newUser.pid := newUser];
        if newUser.name != "" {
          nameUserMap := nameUserMap[newUser.name := newUser];
        }
      }
    }

    method WriteToSharedMemory()
      modifies shm`text
      ensures shm.text == Print(idUserMap)
    {
      var oss := "";
      var left := idUserMap;
      while left != map[]
        invariant oss + Print(left) == Print(idUserMap)
        decreases |left|
      {
        hide PrintUser, Least;
        var id := Least(left.Keys);
        PrintLeast(oss, left);
        oss := oss + (PrintUser(left[id]) + "\n");
        left := left - {id};
      }
      assert oss + "" == oss;
      shm.text := oss;
    }

    /** The text is the print of a well-formed registry and nobody holds the semaphore. */
    ghost predicate Shared(m: Registry)
      reads shm
    {
      shm.semaphore == 1 && shm.text == Print(m) && Good(m)
    }

    method AddUser(pid: nat, fd: nat, host: Ip, port: nat, ghost m: Registry) returns (newUser: User)
      requires Shared(m) && !HasPid(m, pid)
      modifies this, shm
      ensures Shared(Added(m, pid, fd, Peer(host, port)))
      ensures newUser == User(LowestFree(m.Keys), pid, fd, Peer(host, port), "")
    {
      hide Good, Indexed, Print, Read, Peer;
      var ipAddr := Peer(host, port);
      shm.Wait();
      ReadFromSharedMemory();
      ReadOfPrint(m);
      AddUserAdds(Maps(), pid, fd, ipAddr);
      AddedGood(m, pid, fd, ipAddr);
      var id := IdMin(idUserMap);
      newUser := User(id, pid, fd, ipAddr, "");
      idUserMap := idUserMap[newUser.id := newUser];
      pidUserMap := pidUserMap[pid := newUser];
      WriteToSharedMemory();
      shm.Signal();
    }

    /** The user is looked up before it is erased. */
    method RemoveUserByPid(pid: nat, ghost m: Registry)
      requires Shared(m)
      modifies this, shm
      ensures Shared(Removed(m, pid))
    {
      hide Good, Indexed, Print, Read;
      shm.Wait();
      ReadFromSharedMemory();
      ReadOfPrint(m);
      PidsAgree(Maps(), pid);
      RemoveUserRemoves(Maps(), pid);
      RemovedGood(m, pid);
      if pid !in pidUserMap {
        shm.Signal();
        return;
      }
      var user := pidUserMap[pid];
      idUserMap := idUserMap - {user.id};
      pidUserMap := pidUserMap - {pid};
      if user.name != "" {
        nameUserMap := nameUserMap - {user.name};
      }
      WriteToSharedMemory();
      shm.Signal();
    }

    /** The name is an argument of a parsed `name` command, and so a word (`ServerParser.ArgumentsAreWords`). */
    method SetNameById(id: nat, name: string, ghost m: Registry) returns (ok: bool)
      requires Shared(m) && id in m && NoSpace(name)
      modifies this, shm
      ensures ok == CanRename(m, name)
      ensures Shared(Renamed(m, id, name))
    {
      hide Good, Indexed, Print, Read;
      shm.Wait();
      ReadFromSharedMemory();
      ReadOfPrint(m);
      RenameUserRenames(Maps(), id, name);
      RenamedGood(m, id, name);
      if name in nameUserMap || name == "" {
        shm.Signal();
        return false;
      }
      var user := idUserMap[id];
      nameUserMap := nameUserMap - {user.name};
      user := user.(name := name);
      nameUserMap := nameUserMap[name := user];
      idUserMap := idUserMap[user.id := user];
      pidUserMap := pidUserMap[user.pid := user];
      WriteToSharedMemory();
      shm.Signal();
      return true;
    }
  }
}
