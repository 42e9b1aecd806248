/** The temp-data store (ITempDataDictionary) as far as this code relies on it:
    a lookup marks the key it finds for deletion, an assignment writes (and
    keeps) an entry, and Save purges the marked entries and commits the rest
    to the response. The store's own cookie handling is reduced to one fact:
    its serializer writes an enum value as its number. */
module TempData {
  import opened Values

  /** The store's state: its entries, and the keys read since the last Save. */
  datatype StoreState = StoreState(data: map<string, Value>, marked: set<string>)

  /** Every marked key is an entry of the store. */
  ghost predicate Consistent(st: StoreState) {
    st.marked <= st.data.Keys
  }

  /** What `TryGetValue(key, out raw)` finds. */
  function Peek(st: StoreState, key: string): (found: Option<Value>)
    ensures found.Some? <==> key in st.data
    ensures found.Some? ==> found.value == st.data[key]
  {
    if key in st.data then Some(st.data[key]) else None
  }

  /** The state after a lookup of `key`: a key that is found is marked for deletion. */
  function AfterLookup(st: StoreState, key: string): StoreState {
    if key in st.data then st.(marked := st.marked + {key}) else st
  }

  /** The state after `tempData[key] = v`: the entry is (over)written and kept. */
  function AfterSet(st: StoreState, key: string, v: Value): StoreState {
    StoreState(st.data[key := v], st.marked - {key})
  }

  /** The state after assigning every entry of a payload, in any order. */
  function AfterWriteAll(st: StoreState, payload: map<string, Value>): StoreState {
    StoreState(st.data + payload, st.marked - payload.Keys)
  }

  /** The state after `Save()`: entries read since the last Save are gone. */
  function AfterSave(st: StoreState): StoreState {
    StoreState(st.data - st.marked, {})
  }

  /** How the cookie serializer writes a value: an enum value as its number. */
  function OnWire(v: Value): (w: Value)
    ensures !v.VEnum? ==> w == v
    ensures v.VEnum? ==> w == VInt(v.ordinal)
  {
    match v
    case VEnum(_, ordinal) => VInt(ordinal)
    case _ => v
  }

  /** The store of the next request, loaded from what the last Save committed. */
  function Reloaded(saved: map<string, Value>): (st: StoreState)
    ensures st.data.Keys == saved.Keys && st.marked == {}
    ensures forall k :: k in saved ==> st.data[k] == OnWire(saved[k])
  {
    StoreState(map k | k in saved :: OnWire(saved[k]), {})
  }

  // ---- Properties of the store contract ----

  /** Every operation keeps marked keys among the entries. */
  lemma OperationsKeepConsistent(st: StoreState, key: string, v: Value, payload: map<string, Value>)
    requires Consistent(st)
    ensures Consistent(AfterLookup(st, key))
    ensures Consistent(AfterSet(st, key, v))
    ensures Consistent(AfterWriteAll(st, payload))
    ensures Consistent(AfterSave(st))
  {
  }

  /** Lookups before Save do not affect one another: a second lookup of any
      key, the same one included, finds what it would have found first. */
  lemma LookupsCommute(st: StoreState, k1: string, k2: string)
    ensures Peek(AfterLookup(st, k1), k2) == Peek(st, k2)
    ensures AfterLookup(AfterLookup(st, k1), k2) == AfterLookup(AfterLookup(st, k2), k1)
  {
  }

  /** A key that was read is absent after Save; a key nobody read survives with its value. */
  lemma SavePurgesExactlyTheReadKeys(st: StoreState, key: string, other: string)
    requires other != key
    ensures key !in AfterSave(AfterLookup(st, key)).data
    ensures other in st.data && other !in st.marked ==>
              Peek(AfterSave(AfterLookup(st, key)), other) == Peek(st, other)
  {
  }

  /** Writing a payload and saving leaves every payload entry in the store,
      and every other key as it was unless it had been read. */
  lemma WriteAllThenSave(st: StoreState, payload: map<string, Value>, k: string)
    ensures k in payload ==> Peek(AfterSave(AfterWriteAll(st, payload)), k) == Some(payload[k])
    ensures k !in payload && k !in st.marked ==>
              Peek(AfterSave(AfterWriteAll(st, payload)), k) == Peek(st, k)
    ensures k !in payload && k in st.marked ==> k !in AfterSave(AfterWriteAll(st, payload)).data
  {
  }

  /** Assigning the entries of a payload one key at a time, in any order,
      reaches the state AfterWriteAll describes: one more assignment turns
      "all but `pending`" into "all but `pending - {k}`". */
  lemma {:induction false} SetStep(st: StoreState, payload: map<string, Value>, pending: set<string>, k: string)
    requires pending <= payload.Keys && k in pending
    ensures AfterSet(AfterWriteAll(st, payload - pending), k, payload[k])
         == AfterWriteAll(st, payload - (pending - {k}))
  {
    var before := payload - pending;
    var after := payload - (pending - {k});
    assert after == before[k := payload[k]];
  }

  /** The caller's IDictionary<string, object?>, which one redirect variant changes in place. */
  class Dictionary {
    var entries: map<string, Value>

    constructor (entries: map<string, Value>)
      ensures this.entries == entries
    {
      this.entries := entries;
    }

    /** `dictionary[key] = v`. */
    method Set(key: string, v: Value)
      modifies this
      ensures entries == old(entries)[key := v]
    {
      entries := entries[key := v];
    }
  }

  /** One request's temp-data store. `saved` records what each Save committed
      to the response, in order. */
  class TempStore {
    var data: map<string, Value>
    var marked: set<string>
    var saved: seq<map<string, Value>>

    function State(): StoreState
      reads this
    {
      StoreState(data, marked)
    }

    /** Only entries of the store are marked for deletion. */
    ghost predicate Valid()
      reads this
    {
      Consistent(State())
    }

    /** The store of a request whose cookie held `loaded`; nothing is read yet. */
    constructor (loaded: map<string, Value>)
      ensures data == loaded && marked == {} && saved == []
      ensures Valid()
    {
      data := loaded;
      marked := {};
      saved := [];
    }

    /** `TryGetValue(key, out raw)`: finds the entry and marks a found key for deletion. */
    method TryGetValue(key: string) returns (raw: Option<Value>)
      modifies this`marked
      ensures raw == Peek(old(State()), key)
      ensures State() == AfterLookup(old(State()), key)
      ensures old(Valid()) ==> Valid()
    {
      if Valid() { OperationsKeepConsistent(State(), key, VNull, map[]); }
      if key in data {
        raw := Some(data[key]);
        marked := marked + {key};
      } else {
        raw := None;
      }
    }

    /** `this[key] = v`. */
    method Set(key: string, v: Value)
      modifies this`data, this`marked
      ensures State() == AfterSet(old(State()), key, v)
      ensures old(Valid()) ==> Valid()
    {
      if Valid() { OperationsKeepConsistent(State(), key, v, map[]); }
      data := data[key := v];
      marked := marked - {key};
    }

    /** `Save()`: purges the entries read and commits the rest to the response. */
    method Save()
      modifies this`data, this`marked, this`saved
      ensures State() == AfterSave(old(State()))
      ensures saved == old(saved) + [data]
      ensures Valid()
    {
      data := data - marked;
      marked := {};
      saved := saved + [data];
    }
  }
}
