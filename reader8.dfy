/** The 8.0 sample's `TryGetValue<T>` extension: a typed read whose boolean
    result reports that the key exists, whether or not the stored value could
    be given type T. */
module Reader8 {
  import opened Values
  import opened TempData

  /** What `TryGetValue<T>` returns and writes to `value`, given what the
      store's own lookup found (None: the key is absent). The enum branch
      looks through Nullable<E> to E. */
  function ReadAs(lookup: Option<Value>, t: TypeTag, converts: EnumConversion): (r: Read)
    // the result is key presence, regardless of conversion
    ensures r.ok <==> lookup.Some?
    // the out value is always a legal T
    ensures HasType(r.value, t)
    // a stored T comes back unchanged
    ensures lookup.Some? && IsInstance(lookup.value, t) ==> r.value == lookup.value
    // a stored number read as an enum, or a nullable enum, becomes that enum value when it converts
    ensures (lookup.Some? && lookup.value.VInt? && UnderlyingEnum(t).Some?)
              ==> r.value == if converts(UnderlyingEnum(t).value, lookup.value.i)
                             then VEnum(UnderlyingEnum(t).value, lookup.value.i)
                             else Default(t)
    // in every other case the out value is default(T)
    ensures r.value != Default(t) ==>
              lookup.Some? && (IsInstance(lookup.value, t) || (lookup.value.VInt? && UnderlyingEnum(t).Some?))
  {
    match lookup
    case None => Read(false, Default(t))
    case Some(raw) =>
      if raw == VNull then Read(true, Default(t))
      else if IsInstance(raw, t) then Read(true, raw)
      else if UnderlyingEnum(t).Some? && raw.VInt? then
        var enumName := UnderlyingEnum(t).value;
        if converts(enumName, raw.i) then Read(true, VEnum(enumName, raw.i))
        else Read(true, Default(t))
      else Read(true, Default(t))
  }

  /** The extension method on a store: one lookup, which marks a found key,
      then the decision of ReadAs. Nothing is written. */
  method TryGetValue(tempData: TempStore, key: string, t: TypeTag, converts: EnumConversion)
    returns (ok: bool, value: Value)
    modifies tempData`marked
    ensures Read(ok, value) == ReadAs(Peek(old(tempData.State()), key), t, converts)
    ensures tempData.State() == AfterLookup(old(tempData.State()), key)
  {
    var raw := tempData.TryGetValue(key);
    var r := ReadAs(raw, t, converts);
    ok, value := r.ok, r.value;
  }

  /** The three outcomes of a read of a present key whose value is not a T:
      null, a failed conversion and a plain mismatch all report presence
      with default(T). */
  lemma PresentButUnusable(raw: Value, t: TypeTag, converts: EnumConversion)
    requires !IsInstance(raw, t)
    requires !(raw.VInt? && UnderlyingEnum(t).Some? && converts(UnderlyingEnum(t).value, raw.i))
    ensures ReadAs(Some(raw), t, converts) == Read(true, Default(t))
  {
  }
}
