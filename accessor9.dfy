/** The 9.0 sample's TempDataAccessor: a chain of typed reads over the
    request's temp data, falling back to a caller-supplied default, with a
    sticky "any data" flag and one terminal Save. Without an HttpContext it
    holds no store and every read yields its default. */
module Accessor9 {
  import opened Values
  import opened TempData
  import Reader9

  /** At least one entry of the log is true. */
  function AnyTrue(log: seq<bool>): bool {
    |log| > 0 && (log[0] || AnyTrue(log[1..]))
  }

  lemma {:induction false} AnyTrueMeansSomeTrue(log: seq<bool>)
    ensures AnyTrue(log) <==> exists i :: 0 <= i < |log| && log[i]
  {
    if |log| > 0 {
      AnyTrueMeansSomeTrue(log[1..]);
      assert forall i :: 1 <= i < |log| ==> log[i] == log[1..][i - 1];
    }
  }

  /** Recording one more read ORs its flag into the summary. */
  lemma {:induction false} AnyTrueAppend(log: seq<bool>, b: bool)
    ensures AnyTrue(log + [b]) == (AnyTrue(log) || b)
  {
    if |log| > 0 {
      assert (log + [b])[1..] == log[1..] + [b];
      AnyTrueAppend(log[1..], b);
    }
  }

  /** Once some read found data, every longer history has found data. */
  lemma {:induction false} AnyTrueSticky(log: seq<bool>, more: seq<bool>)
    requires AnyTrue(log)
    ensures AnyTrue(log + more)
  {
    AnyTrueMeansSomeTrue(log);
    AnyTrueMeansSomeTrue(log + more);
    var i :| 0 <= i < |log| && log[i];
    assert (log + more)[i];
  }

  /** What `TryGet<T>(key, out value, out hasData, defaultValue)` yields
      against a store in state `store` (None: no store): the 9.0 reader's
      flag, and its value when the flag is true, the default otherwise. */
  function Fetched(store: Option<StoreState>, key: string, t: TypeTag, converts: EnumConversion, defaultValue: Value)
    : (r: Read)
    ensures store.None? ==> r == Read(false, defaultValue)
    ensures store.Some? ==> r.ok == Reader9.ReadAs(Peek(store.value, key), t, converts).ok
    ensures r.ok ==> r.value == Reader9.ReadAs(Peek(store.value, key), t, converts).value && IsInstance(r.value, t)
    ensures !r.ok ==> r.value == defaultValue
  {
    match store
    case None => Read(false, defaultValue)
    case Some(st) =>
      var r := Reader9.ReadAs(Peek(st, key), t, converts);
      if r.ok then r else Read(false, defaultValue)
  }

  class TempDataAccessor {
    /** The request's temp data; null when there was no HttpContext. */
    const tempData: TempStore?
    var hasAnyData: bool
    /** The `hasData` of every TryGet so far, in order. */
    ghost var hasDataLog: seq<bool>

    ghost predicate Valid()
      reads this
    {
      hasAnyData == AnyTrue(hasDataLog)
    }

    function Store(): Option<StoreState>
      reads this, tempData
    {
      if tempData == null then None else Some(tempData.State())
    }

    constructor (contextStore: TempStore?)
      ensures tempData == contextStore
      ensures Valid() && !hasAnyData && hasDataLog == []
    {
      tempData := contextStore;
      hasAnyData := false;
      hasDataLog := [];
    }

    /** `TryGet<T>`: one typed read; returns this accessor for chaining.
        The default value is default(T) unless the caller gives one. */
    method TryGet(key: string, t: TypeTag, converts: EnumConversion, defaultValue: Value := Default(t))
      returns (self: TempDataAccessor, value: Value, hasData: bool)
      requires Valid()
      modifies this, tempData
      ensures self == this && Valid()
      ensures Read(hasData, value) == Fetched(old(Store()), key, t, converts, defaultValue)
      ensures hasDataLog == old(hasDataLog) + [hasData]
      ensures hasAnyData == (old(hasAnyData) || hasData)
      ensures tempData != null ==> tempData.State() == AfterLookup(old(tempData.State()), key)
      ensures tempData != null ==> tempData.saved == old(tempData.saved)
    {
      self := this;
      if tempData != null {
        hasData, value := Reader9.TryGetValue(tempData, key, t, converts);
        if !hasData {
          value := defaultValue;
        }
        hasAnyData := hasAnyData || hasData;
      } else {
        hasData := false;
        value := defaultValue;
      }
      AnyTrueAppend(hasDataLog, hasData);
      hasDataLog := hasDataLog + [hasData];
    }

    /** `HasAnyData`: whether any TryGet so far found data. */
    function HasAnyData(): (r: bool)
      requires Valid()
      reads this
      ensures r <==> exists i :: 0 <= i < |hasDataLog| && hasDataLog[i]
    {
      AnyTrueMeansSomeTrue(hasDataLog);
      hasAnyData
    }

    /** `Save()`: forwards to the store, when there is one. */
    method Save()
      modifies tempData
      ensures tempData != null ==> tempData.State() == AfterSave(old(tempData.State()))
      ensures tempData != null ==> tempData.saved == old(tempData.saved) + [tempData.data]
    {
      if tempData != null {
        tempData.Save();
      }
    }
  }
}
