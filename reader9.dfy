/** The 9.0 sample's `TryGetValue<T>` extension: a typed read whose boolean
    result reports that a value of type T was obtained. */
module Reader9 {
  import opened Values
  import opened TempData
  import Reader8

  /** True when a stored value can be returned as a T by 9.0: it is a T, or T
      is itself an enum type and the value is a number that converts. */
  predicate Obtainable(raw: Value, t: TypeTag, converts: EnumConversion) {
    IsInstance(raw, t)
    || (DirectEnum(t).Some? && raw.VInt? && converts(DirectEnum(t).value, raw.i))
  }

  /** What `TryGetValue<T>` returns and writes to `value`, given what the
      store's own lookup found. The enum branch tests `typeof(T).IsEnum`,
      which is false for Nullable<E>. */
  function ReadAs(lookup: Option<Value>, t: TypeTag, converts: EnumConversion): (r: Read)
    // true exactly when the key is present, non-null and yields a T
    ensures r.ok <==> lookup.Some? && lookup.value != VNull && Obtainable(lookup.value, t, converts)
    // on false the out value is default(T); on true it is a non-null T
    ensures !r.ok ==> r.value == Default(t)
    ensures r.ok ==> IsInstance(r.value, t)
    // a stored T comes back unchanged
    ensures lookup.Some? && IsInstance(lookup.value, t) ==> r == Read(true, lookup.value)
  {
    if lookup.Some? && lookup.value != VNull then
      var raw := lookup.value;
      if IsInstance(raw, t) then Read(true, raw)
      else if DirectEnum(t).Some? && raw.VInt? && converts(DirectEnum(t).value, raw.i) then
        Read(true, VEnum(DirectEnum(t).value, raw.i))
      else Read(false, Default(t))
    else Read(false, Default(t))
  }

  /** The extension method on a store: one lookup, which marks a found key,
      then the decision of ReadAs. Nothing is written. */
  method TryGetValue(tempData: TempStore, key: string, t: TypeTag, converts: EnumConversion)
    returns (ok: bool, value: Value)
    modifies tempData`marked
    ensures Read(ok, value) == ReadAs(Peek(old(tempData.State()), key), t, converts)
    ensures tempData.State() == AfterLookup(old(tempData.State()), key)
  {
    var raw := tempData.TryGetValue(key);
    var r := ReadAs(raw, t, converts);
    ok, value := r.ok, r.value;
  }

  // ---- The two readers side by side ----

  /** Whenever 9.0 succeeds, 8.0 returns true with the same value; 8.0 also
      returns true where 9.0 fails, exactly for present keys. */
  lemma SuccessImpliesPresence(lookup: Option<Value>, t: TypeTag, converts: EnumConversion)
    ensures ReadAs(lookup, t, converts).ok ==> Reader8.ReadAs(lookup, t, converts) == ReadAs(lookup, t, converts)
    ensures (Reader8.ReadAs(lookup, t, converts).ok && !ReadAs(lookup, t, converts).ok)
              <==> lookup.Some? && (lookup.value == VNull || !Obtainable(lookup.value, t, converts))
  {
  }

  /** The out values of the two readers differ exactly when a number that
      converts is read as a nullable enum: 8.0 yields the enum value, 9.0 null. */
  lemma ValuesDifferOnlyForNullableEnum(lookup: Option<Value>, t: TypeTag, converts: EnumConversion)
    ensures Reader8.ReadAs(lookup, t, converts).value != ReadAs(lookup, t, converts).value
            <==> (t.Nullable? && t.vt.EnumType? && lookup.Some? && lookup.value.VInt?
                  && converts(t.vt.name, lookup.value.i))
  {
  }

  // ---- Corrected reader (see Findings) ----

  /** 9.0's reader with the enum test made on `Nullable.GetUnderlyingType(typeof(T)) ?? typeof(T)`,
      as 8.0 does, so that a number stored for a nullable enum is recovered. */
  function ReadAsUnwrapped(lookup: Option<Value>, t: TypeTag, converts: EnumConversion): (r: Read)
    ensures r.ok <==> lookup.Some? && lookup.value != VNull
                      && (IsInstance(lookup.value, t)
                          || (UnderlyingEnum(t).Some? && lookup.value.VInt?
                              && converts(UnderlyingEnum(t).value, lookup.value.i)))
    ensures !r.ok ==> r.value == Default(t)
    ensures r.ok ==> IsInstance(r.value, t)
  {
    if lookup.Some? && lookup.value != VNull then
      var raw := lookup.value;
      if IsInstance(raw, t) then Read(true, raw)
      else if UnderlyingEnum(t).Some? && raw.VInt? && converts(UnderlyingEnum(t).value, raw.i) then
        Read(true, VEnum(UnderlyingEnum(t).value, raw.i))
      else Read(false, Default(t))
    else Read(false, Default(t))
  }

  /** The corrected reader agrees with 9.0 on every type but a nullable enum,
      yields the same value as 8.0 on every input, and recovers a nullable
      enum stored as its number. */
  lemma UnwrappedReaderIsTheIntendedOne(lookup: Option<Value>, t: TypeTag, converts: EnumConversion)
    ensures !(t.Nullable? && t.vt.EnumType?) ==> ReadAsUnwrapped(lookup, t, converts) == ReadAs(lookup, t, converts)
    ensures ReadAsUnwrapped(lookup, t, converts).value == Reader8.ReadAs(lookup, t, converts).value
    ensures (t.Nullable? && t.vt.EnumType? && lookup.Some? && lookup.value.VInt? && converts(t.vt.name, lookup.value.i))
              ==> ReadAsUnwrapped(lookup, t, converts) == Read(true, VEnum(t.vt.name, lookup.value.i))
  {
  }
}
