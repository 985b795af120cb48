/** The lease store: `dbMap2`, its counters, and the goroutines asleep until they clear an entry. */
module StatusStorage {
  import opened Common
  import opened Topology

  datatype Status = Status(status: int, counter: nat)

  type Db = map<int, map<int, Status>>

  /** The closure a `set` hands over, run after the entry's timer fired. */
  datatype ClearFunc =
    | CheckHost(hostId: int, clusterId: int)
    | CheckHc(hcHost: int, hcComp: int, hc: ClusterService)

  /** A clear request held by a sleeping goroutine. */
  datatype ClearRequest = ClearRequest(key1: int, key2: int, counter: nat, clearFunc: ClearFunc)

  // ---------- the two-level map as a value ----------

  function Lookup(db: Db, key1: int, key2: int): Option<Status> {
    if key1 in db && key2 in db[key1] then Some(db[key1][key2]) else None
  }

  const NO_STATUS := 16

  /** The status a reader sees; 16 stands for "no report". */
  function StatusOf(db: Db, key1: int, key2: int): int {
    match Lookup(db, key1, key2)
    case Some(st) => st.status
    case None => NO_STATUS
  }

  /** A missing entry reads as the zero struct, so its counter is 0. */
  function CounterOf(db: Db, key1: int, key2: int): nat {
    match Lookup(db, key1, key2)
    case Some(st) => st.counter
    case None => 0
  }

  function WithEntry(db: Db, key1: int, key2: int, st: Status): (r: Db)
    ensures forall k1, k2 :: Lookup(r, k1, k2) == if k1 == key1 && k2 == key2 then Some(st) else Lookup(db, k1, k2)
  {
    var row: map<int, Status> := if key1 in db then db[key1] else map[];
    db[key1 := row[key2 := st]]
  }

  function WithoutEntry(db: Db, key1: int, key2: int): (r: Db)
    ensures forall k1, k2 :: Lookup(r, k1, k2) == if k1 == key1 && k2 == key2 then None else Lookup(db, k1, k2)
  {
    if key1 in db then db[key1 := db[key1] - {key2}] else db
  }

  function AfterSet(db: Db, key1: int, key2: int, val: int): Db {
    match Lookup(db, key1, key2)
    case Some(st) => WithEntry(db, key1, key2, Status(val, st.counter + 1))
    case None => WithEntry(db, key1, key2, Status(val, 0))
  }

  function AfterClear(db: Db, key1: int, key2: int, counter: nat): Db {
    if counter == CounterOf(db, key1, key2) then WithoutEntry(db, key1, key2) else db
  }

  // ---------- the store as a value ----------

  /** `pending` maps the number of the request that started a timer to what the timer will ask for;
      `served` numbers the set and clear requests. */
  datatype Store = Store(db: Db, timeout: int, pending: map<nat, ClearRequest>, served: nat)

  function PutStore(s: Store, key1: int, key2: int, val: int, clearFunc: ClearFunc): Store {
    var db := AfterSet(s.db, key1, key2, val);
    var pending :=
      if s.timeout == 0 then s.pending
      else s.pending[s.served := ClearRequest(key1, key2, CounterOf(db, key1, key2), clearFunc)];
    Store(db, s.timeout, pending, s.served + 1)
  }

  function ExpireStore(s: Store, start: nat): Store
    requires start in s.pending
  {
    var r := s.pending[start];
    Store(AfterClear(s.db, r.key1, r.key2, r.counter), s.timeout, s.pending - {start}, s.served + 1)
  }

  // ---------- the objects ----------

  class DbMap2 {
    var m: Db

    constructor ()
      ensures m == map[]
    {
      m := map[];
    }

    method Get(key1: int, key2: int) returns (val: Status, ok: bool)
      ensures ok <==> Lookup(m, key1, key2).Some?
      ensures ok ==> val == Lookup(m, key1, key2).value
      ensures val.status == StatusOf(m, key1, key2)
    {
      if key1 in m && key2 in m[key1] {
        return m[key1][key2], true;
      }
      return Status(NO_STATUS, 0), false;
    }

    method GetCounter(key1: int, key2: int) returns (counter: nat)
      ensures counter == CounterOf(m, key1, key2)
    {
      counter := 0;
      if key1 in m && key2 in m[key1] {
        counter := m[key1][key2].counter;
      }
    }

    /** 201 opens a new entry with counter 0, 200 overwrites a live one and bumps its counter. */
    method Set(key1: int, key2: int, val: int) returns (res: int)
      modifies this
      ensures m == AfterSet(old(m), key1, key2, val)
      ensures res == if Lookup(old(m), key1, key2).Some? then 200 else 201
    {
      var st := Status(0, 0);
      if key1 !in m {
        m := m[key1 := map[]];
      }
      if key2 in m[key1] {
        st := m[key1][key2];
        st := st.(counter := st.counter + 1);
        res := 200;
      } else {
        res := 201;
      }
      st := st.(status := val);
      m := m[key1 := m[key1][key2 := st]];
    }

    method Clear(key1: int, key2: int, counter: nat)
      modifies this
      ensures m == AfterClear(old(m), key1, key2, counter)
    {
      var oldC := GetCounter(key1, key2);
      if counter == oldC {
        if key1 in m {
          m := m[key1 := m[key1] - {key2}];
        }
      }
    }
  }

  class Storage {
    const dbMap: DbMap2
    var timeout: int
    var pending: map<nat, ClearRequest>
    var served: nat

    function View(): Store
      reads this, dbMap
    {
      Store(dbMap.m, timeout, pending, served)
    }

    constructor (timeout: int)
      ensures fresh(dbMap)
      ensures View() == Store(map[], timeout, map[], 0)
    {
      dbMap := new DbMap2();
      this.timeout := timeout;
      pending := map[];
      served := 0;
    }

    method Set(key1: int, key2: int, val: int, clearFunc: ClearFunc) returns (code: int)
      modifies this, dbMap
      ensures View() == PutStore(old(View()), key1, key2, val, clearFunc)
      ensures code == if Lookup(old(dbMap.m), key1, key2).Some? then 200 else 201
    {
      code := dbMap.Set(key1, key2, val);
      StartTimer(key1, key2, clearFunc);
      served := served + 1;
    }

    method StartTimer(key1: int, key2: int, clearFunc: ClearFunc)
      modifies this`pending
      ensures pending == if timeout == 0 then old(pending)
                         else old(pending)[served := ClearRequest(key1, key2,
                                            CounterOf(dbMap.m, key1, key2), clearFunc)]
    {
      if timeout == 0 {
        return;
      }
      var counter := dbMap.GetCounter(key1, key2);
      pending := pending[served := ClearRequest(key1, key2, counter, clearFunc)];
    }

    /** One sleeping goroutine wakes and its clear request is served; the closure is handed back. */
    method Expire(start: nat) returns (clearFunc: ClearFunc)
      requires start in pending
      modifies this, dbMap
      ensures View() == ExpireStore(old(View()), start)
      ensures clearFunc == old(pending)[start].clearFunc
    {
      var c := pending[start];
      pending := pending - {start};
      dbMap.Clear(c.key1, c.key2, c.counter);
      clearFunc := c.clearFunc;
      served := served + 1;
    }

    method Get(key1: int, key2: int) returns (val: Status, ok: bool)
      ensures ok <==> Lookup(dbMap.m, key1, key2).Some?
      ensures ok ==> val == Lookup(dbMap.m, key1, key2).value
      ensures val.status == StatusOf(dbMap.m, key1, key2)
    {
      val, ok := dbMap.Get(key1, key2);
    }
  }
}
