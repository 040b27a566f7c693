/** The user registry of the multi-process server as it lies in shared memory: one text line per user,
    printed from the id map and read back into the id, pid and name maps. */
module RegistryText {
  import opened Text

  datatype User = User(id: nat, pid: nat, fd: nat, ipAddr: string, name: string)

  type Registry = map<nat, User>

  /** `idUserMap`, `pidUserMap` and `nameUserMap`. */
  datatype Tables = Tables(ids: Registry, pids: map<nat, User>, names: map<string, User>)

  const NO_TABLES := Tables(map[], map[], map[])

  // ---------- well-formed registries and their indices ----------

  /** Registered under its own id, with fields that survive printing. */
  predicate Printable(id: nat, u: User) {
    u.id == id && IsWord(u.ipAddr) && NoSpace(u.name)
  }

  /** Two users share no pid and no name, except that both may be unnamed. */
  predicate Apart(a: User, b: User) {
    a.pid != b.pid && (a.name != "" ==> a.name != b.name)
  }

  ghost predicate Good(m: Registry) {
    && (forall i | i in m :: Printable(i, m[i]))
    && (forall i, j | i in m && j in m && i != j :: Apart(m[i], m[j]))
  }

  /** The pid and name maps are exactly the inverses of the id map. */
  ghost predicate Indexed(t: Tables) {
    && (forall i | i in t.ids :: t.ids[i].pid in t.pids && t.pids[t.ids[i].pid] == t.ids[i])
    && (forall p | p in t.pids :: t.pids[p].pid == p && t.pids[p].id in t.ids && t.ids[t.pids[p].id] == t.pids[p])
    && (forall i | i in t.ids && t.ids[i].name != "" :: t.ids[i].name in t.names && t.names[t.ids[i].name] == t.ids[i])
    && (forall n | n in t.names :: n != "" && t.names[n].name == n
                                   && t.names[n].id in t.ids && t.ids[t.names[n].id] == t.names[n])
  }

  // ---------- printing ----------

  predicate IsLeast(s: set<nat>, x: nat) {
    x in s && forall y | y in s :: x <= y
  }

  lemma {:induction false} LeastExists(s: set<nat>)
    requires s != {}
    ensures exists x :: IsLeast(s, x)
  {
    var x :| x in s;
    if y :| y in s && y < x {
      assert y in s - {x};
      LeastExists(s - {x});
      var z :| IsLeast(s - {x}, z);
      LeastOfMore(s, x, y, z);
    } else {
      assert IsLeast(s, x);
    }
  }

  lemma LeastOfMore(s: set<nat>, x: nat, y: nat, z: nat)
    requires x in s && y in s && y < x && IsLeast(s - {x}, z)
    ensures IsLeast(s, z)
  {
    assert y in s - {x};
    forall u | u in s ensures z <= u { assert u == x || u in s - {x}; }
  }

  function Least(s: set<nat>): (x: nat)
    requires s != {}
    ensures x in s && forall y | y in s :: x <= y
  {
    LeastExists(s);
    var x :| IsLeast(s, x);
    x
  }

  function PrintUser(u: User): string {
    Decimal(u.id) + (" " + (Decimal(u.pid) + (" " + (Decimal(u.fd) + (" " + (u.ipAddr + (" " + u.name)))))))
  }

  /** The lines in the order in which the id map is iterated. */
  function Print(m: Registry): string
    decreases |m|
  {
    if m == map[] then ""
    else
      var i := Least(m.Keys);
      PrintUser(m[i]) + ("\n" + Print(m - {i}))
  }

  // ---------- reading ----------

  /** `line >> id >> pid >> fd >> ipAddr`, then `line >> name` if there is one. */
  function ReadUser(line: string): User {
    var s1 := SkipSpace(line);
    var s2 := SkipSpace(AfterDigits(s1));
    var s3 := SkipSpace(AfterDigits(s2));
    var s4 := SkipSpace(AfterDigits(s3));
    User(ReadNat(s1), ReadNat(s2), ReadNat(s3), Word(s4), Word(SkipSpace(AfterWord(s4))))
  }

  function Insert(t: Tables, u: User): Tables {
    Tables(t.ids[u.id := u], t.pids[u.pid := u], if u.name != "" then t.names[u.name := u] else t.names)
  }

  function Load(lines: seq<string>, t: Tables): Tables {
    if lines == [] then t else Load(lines[1..], Insert(t, ReadUser(lines[0])))
  }

  function Read(text: string): Tables {
    Load(Lines(text), NO_TABLES)
  }

  // ---------- reading back what was printed ----------

  lemma ReadTail(ipAddr: string, name: string)
    requires IsWord(ipAddr) && NoSpace(name)
    ensures var s := ipAddr + (" " + name);
            SkipSpace(s) == s && Word(s) == ipAddr && Word(SkipSpace(AfterWord(s))) == name
    ensures !IsSpace((ipAddr + (" " + name))[0])
  {
    ReadBack(ipAddr, " " + name);
    WordOf(name, "");
    assert name + "" == name;
    if name == "" {
      assert (" " + name)[1..] == "" && SkipSpace(" " + name) == "";
    } else {
      OneSpace(name);
    }
  }

  lemma ReadPrinted(u: User)
    requires IsWord(u.ipAddr) && NoSpace(u.name)
    ensures ReadUser(PrintUser(u)) == u
    ensures OneLine(PrintUser(u))
  {
    var r4 := u.ipAddr + (" " + u.name);
    var r3 := Decimal(u.fd) + (" " + r4);
    var r2 := Decimal(u.pid) + (" " + r3);
    NumberField(u.id, " " + r2);
    OneSpace(r2);
    NumberField(u.pid, " " + r3);
    OneSpace(r3);
    NumberField(u.fd, " " + r4);
    ReadTail(u.ipAddr, u.name);
    OneSpace(r4);
    OneLinePrinted(u);
    hide Decimal, SkipSpace, Word, AfterWord, LeadingDigits, ReadNat, AfterDigits;
    assert PrintUser(u) == Decimal(u.id) + (" " + r2);
  }

  lemma OneLinePrinted(u: User)
    requires IsWord(u.ipAddr) && NoSpace(u.name)
    ensures OneLine(PrintUser(u))
  {
    assert forall s: string | NoSpace(s) :: OneLine(s);
    assert AllDigits(Decimal(u.id)) && AllDigits(Decimal(u.pid)) && AllDigits(Decimal(u.fd));
    assert forall s: string | AllDigits(s) :: NoSpace(s);
  }

  lemma InsertIndexed(t: Tables, u: User)
    requires Indexed(t) && u.id !in t.ids
    requires forall i | i in t.ids :: t.ids[i].id == i && Apart(t.ids[i], u) && Apart(u, t.ids[i])
    ensures Indexed(Insert(t, u))
  {
  }

  function UserLines(m: Registry): seq<string>
    decreases |m|
  {
    if m == map[] then []
    else
      var i := Least(m.Keys);
      [PrintUser(m[i])] + UserLines(m - {i})
  }

  lemma {:induction false} PrintedLines(m: Registry)
    requires forall i | i in m :: Printable(i, m[i])
    ensures Lines(Print(m)) == UserLines(m)
    decreases |m|
  {
    if m != map[] {
      var i := Least(m.Keys);
      OneLinePrinted(m[i]);
      LinesOf(PrintUser(m[i]), Print(m - {i}));
      PrintedLines(m - {i});
    }
  }

  /** One line of the text, loaded. */
  lemma LoadFirst(m: Registry, t: Tables)
    requires Good(t.ids + m) && t.ids.Keys !! m.Keys && Indexed(t) && m != map[]
    ensures var i := Least(m.Keys);
            && m[i].id == i
            && Load(UserLines(m), t) == Load(UserLines(m - {i}), Insert(t, m[i]))
            && Indexed(Insert(t, m[i]))
  {
    var i := Least(m.Keys);
    var u := m[i];
    var all := t.ids + m;
    assert all[i] == u && Printable(i, u);
    ReadPrinted(u);
    assert UserLines(m)[1..] == UserLines(m - {i});
    forall j | j in t.ids ensures t.ids[j].id == j && Apart(t.ids[j], u) && Apart(u, t.ids[j]) {
      assert all[j] == t.ids[j] && j != i;
      assert Printable(j, all[j]);
    }
    InsertIndexed(t, u);
  }

  lemma MoveOne(a: Registry, m: Registry, i: nat)
    requires i in m && a.Keys !! m.Keys
    ensures a[i := m[i]] + (m - {i}) == a + m
    ensures a[i := m[i]].Keys !! (m - {i}).Keys && |m - {i}| < |m|
  {
    assert (m - {i}).Keys == m.Keys - {i};
  }

  lemma LoadRest(m: Registry, t: Tables) returns (i: nat, t': Tables)
    requires Good(t.ids + m) && t.ids.Keys !! m.Keys && Indexed(t) && m != map[]
    ensures i in m && |m - {i}| < |m| && Load(UserLines(m), t) == Load(UserLines(m - {i}), t')
    ensures t'.ids + (m - {i}) == t.ids + m && t'.ids.Keys !! (m - {i}).Keys && Indexed(t')
  {
    LoadFirst(m, t);
    i := Least(m.Keys);
    MoveOne(t.ids, m, i);
    t' := Insert(t, m[i]);
    assert t'.ids == t.ids[i := m[i]];
  }

  lemma {:induction false} LoadPrinted(m: Registry, t: Tables)
    requires Good(t.ids + m) && t.ids.Keys !! m.Keys && Indexed(t)
    ensures Load(UserLines(m), t).ids == t.ids + m && Indexed(Load(UserLines(m), t))
    decreases |m|
  {
    hide Good, Indexed;
    if m == map[] {
      assert t.ids + m == t.ids;
    } else {
      var i, t' := LoadRest(m, t);
      LoadPrinted(m - {i}, t');
    }
  }

  /** Round trip: the text of a well-formed registry reads back as that registry, with the pid and name
      maps rebuilt as its exact inverses. */
  lemma ReadOfPrint(m: Registry)
    requires Good(m)
    ensures Read(Print(m)).ids == m && Indexed(Read(Print(m)))
  {
    assert map[] + m == m;
    PrintedLines(m);
    LoadPrinted(m, NO_TABLES);
  }

  // ---------- the lowest free id ----------

  ghost predicate IsLowestFree(ids: set<nat>, id: nat) {
    id >= 1 && id !in ids && forall j: nat | 1 <= j < id :: j in ids
  }

  function UpTo(n: nat): (s: set<nat>)
    ensures |s| == n && forall j: nat :: j in s <==> 1 <= j <= n
  {
    if n == 0 then {} else UpTo(n - 1) + {n}
  }

  lemma SubsetSize(a: set<nat>, b: set<nat>)
    requires a <= b
    ensures |a| <= |b|
    decreases |a|
  {
    if a != {} {
      var x :| x in a;
      SubsetSize(a - {x}, b - {x});
    }
  }

  /** Pigeonhole: the lowest free id is at most one more than the number of ids in use. */
  lemma LowestFreeBound(ids: set<nat>, id: nat)
    requires forall j: nat | 1 <= j < id :: j in ids
    requires id >= 1
    ensures id <= |ids| + 1
  {
    SubsetSize(UpTo(id - 1), ids);
  }

  function LowestFreeFrom(ids: set<nat>, id: nat): (r: nat)
    requires id >= 1 && forall j: nat | 1 <= j < id :: j in ids
    ensures IsLowestFree(ids, r) && r <= |ids| + 1
    decreases |ids| + 1 - id
  {
    LowestFreeBound(ids, id);
    if id !in ids then id
    else
      LowestFreeBound(ids, id + 1);
      LowestFreeFrom(ids, id + 1)
  }

  function LowestFree(ids: set<nat>): (r: nat)
    ensures IsLowestFree(ids, r) && r <= |ids| + 1
  {
    LowestFreeFrom(ids, 1)
  }

  /** `idMin`: count up until an id is unused. */
  method IdMin<T>(idUserMap: map<nat, T>) returns (id: nat)
    ensures id == LowestFree(idUserMap.Keys)
    ensures IsLowestFree(idUserMap.Keys, id) && id <= |idUserMap| + 1
  {
    id := 1;
    while id in idUserMap
      invariant id >= 1 && forall j: nat | 1 <= j < id :: j in idUserMap
      invariant LowestFreeFrom(idUserMap.Keys, id) == LowestFree(idUserMap.Keys)
      decreases |idUserMap| + 1 - id
    {
      LowestFreeBound(idUserMap.Keys, id + 1);
      id := id + 1;
    }
  }
}
