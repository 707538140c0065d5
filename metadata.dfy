/**
 * The two shapes of user metadata in backend/indexing.py: the flat
 * dictionary the extractors produce, and the nested
 * `{"fields": {key: {"value": text}}}` dictionary the knowledge base stores.
 * `FormatMetadata` goes from the first to the second, `FlattenMetadata`
 * back; the lemmas at the end show that they are inverse to each other.
 */
module Metadata {
  import opened PyValue

  /** A metadata value survives formatting when it is neither `None` nor `""`. */
  predicate Kept(v: Value)
  {
    v != Null && v != Str("")
  }

  /** The nested form of one value: `{"value": str(v)}`. */
  function Wrap(v: Value): Value
  {
    Dict([Entry("value", Str(PyStr(v)))])
  }

  /** The formatted entries of a flat dictionary, in insertion order. */
  function FormattedFields(md: seq<Entry>): seq<Entry>
  {
    if md == [] then []
    else
      var last := md[|md| - 1];
      FormattedFields(md[..|md| - 1]) + (if Kept(last.val) then [Entry(last.key, Wrap(last.val))] else [])
  }

  /** The flat dictionary the round trip yields: `{k: str(v)}` over the kept entries. */
  function StringifiedKept(md: seq<Entry>): seq<Entry>
  {
    if md == [] then []
    else
      var last := md[|md| - 1];
      StringifiedKept(md[..|md| - 1]) + (if Kept(last.val) then [Entry(last.key, Str(PyStr(last.val)))] else [])
  }

  /** The whole nested document for a list of formatted fields. */
  function Nested(fields: seq<Entry>): Value
  {
    Dict([Entry("fields", Dict(fields))])
  }

  /** The nested document for a flat dictionary, absent when no field survives. */
  function Format(metadata: Option<seq<Entry>>): Option<Value>
  {
    match metadata
    case None => None
    case Some(md) => var f := FormattedFields(md); if f == [] then None else Some(Nested(f))
  }

  /**
   * `_format_metadata_for_nuclia`: `None` when the input is missing or
   * empty or when no value survives; otherwise the nested document.
   */
  method FormatMetadata(metadata: Option<seq<Entry>>) returns (r: Option<Value>)
    ensures r.None? <==> metadata.None? || forall i :: 0 <= i < |metadata.value| ==> !Kept(metadata.value[i].val)
    ensures r.Some? ==> r.value == Nested(FormattedFields(metadata.value))
    ensures r == Format(metadata)
  {
    if metadata.None? || metadata.value == [] {
      return None;
    }
    var md := metadata.value;
    var formatted: seq<Entry> := [];
    for i := 0 to |md|
      invariant formatted == FormattedFields(md[..i])
    {
      assert md[..i + 1][..i] == md[..i];
      if md[i].val != Null && md[i].val != Str("") {
        formatted := formatted + [Entry(md[i].key, Dict([Entry("value", Str(PyStr(md[i].val)))]))];
      }
    }
    assert md[..|md|] == md;
    FormattedEmptyIffNoneKept(md);
    if formatted != [] {
      return Some(Dict([Entry("fields", Dict(formatted))]));
    }
    return None;
  }

  /** The flat value of one nested entry: its `"value"`, or `str` of the whole entry. */
  function Unwrap(valueObj: Value): Value
  {
    if HasKey(valueObj, "value") then Get(valueObj.entries, "value").value else Str(PyStr(valueObj))
  }

  function UnwrappedFields(fields: seq<Entry>): (r: seq<Entry>)
    ensures |r| == |fields|
  {
    if fields == [] then []
    else
      var last := fields[|fields| - 1];
      UnwrappedFields(fields[..|fields| - 1]) + [Entry(last.key, Unwrap(last.val))]
  }

  /** The `fields` dictionary of a nested document, when there is one to read. */
  function FieldsOf(nuclia: Value): Option<seq<Entry>>
  {
    if !Truthy(nuclia) || !nuclia.Dict? then None
    else
      match GetOr(nuclia.entries, "fields", Dict([]))
      case Dict(fs) => Some(fs)
      case _ => None
  }

  /** The flat dictionary for a nested document. */
  function Flatten(nuclia: Value): seq<Entry>
  {
    match FieldsOf(nuclia)
    case None => []
    case Some(fs) => UnwrappedFields(fs)
  }

  /**
   * `_flatten_nuclia_usermetadata`: `{}` unless the input is a non-empty
   * dictionary whose `fields` (default `{}`) is a dictionary; otherwise one
   * flat entry per field, in order.
   */
  method FlattenMetadata(nuclia: Value) returns (flattened: seq<Entry>)
    ensures FieldsOf(nuclia).None? ==> flattened == []
    ensures FieldsOf(nuclia).Some? ==> flattened == UnwrappedFields(FieldsOf(nuclia).value)
    ensures flattened == Flatten(nuclia)
  {
    flattened := [];
    if !Truthy(nuclia) || !nuclia.Dict? {
      return;
    }
    var fields := GetOr(nuclia.entries, "fields", Dict([]));
    if !fields.Dict? {
      return;
    }
    var fs := fields.entries;
    for i := 0 to |fs|
      invariant flattened == UnwrappedFields(fs[..i])
    {
      assert fs[..i + 1][..i] == fs[..i];
      var valueObj := fs[i].val;
      if valueObj.Dict? && Get(valueObj.entries, "value").Some? {
        assert HasKey(valueObj, "value");
        flattened := flattened + [Entry(fs[i].key, Get(valueObj.entries, "value").value)];
      } else {
        flattened := flattened + [Entry(fs[i].key, Str(PyStr(valueObj)))];
      }
    }
    assert fs[..|fs|] == fs;
  }

  // -----------------------------------------------------------------------
  // Properties of the two shapes

  lemma {:induction false} FormattedEmptyIffNoneKept(md: seq<Entry>)
    ensures FormattedFields(md) == [] <==> forall i :: 0 <= i < |md| ==> !Kept(md[i].val)
  {
    if md != [] {
      var init := md[..|md| - 1];
      FormattedEmptyIffNoneKept(init);
      assert forall i :: 0 <= i < |init| ==> init[i] == md[i];
    }
  }

  /**
   * Every formatted field comes from a kept input entry with the same key
   * and carries `{"value": str(v)}`; every kept entry gives one.
   */
  lemma {:induction false} FormattedFieldsExact(md: seq<Entry>, e: Entry)
    ensures e in FormattedFields(md) <==>
      exists i :: 0 <= i < |md| && Kept(md[i].val) && e == Entry(md[i].key, Wrap(md[i].val))
  {
    if md != [] {
      var init := md[..|md| - 1];
      FormattedFieldsExact(init, e);
      assert forall i :: 0 <= i < |init| ==> init[i] == md[i];
      if e in FormattedFields(md) && e !in FormattedFields(init) {
        assert Kept(md[|md| - 1].val) && e == Entry(md[|md| - 1].key, Wrap(md[|md| - 1].val));
      }
    }
  }

  /** The formatted keys are the kept input keys, in the same order. */
  lemma {:induction false} FormattedKeysAreKeptKeys(md: seq<Entry>)
    ensures Keys(FormattedFields(md)) == Keys(StringifiedKept(md))
  {
    if md != [] {
      FormattedKeysAreKeptKeys(md[..|md| - 1]);
      KeysAppend(FormattedFields(md[..|md| - 1]), if Kept(md[|md| - 1].val) then [Entry(md[|md| - 1].key, Wrap(md[|md| - 1].val))] else []);
      KeysAppend(StringifiedKept(md[..|md| - 1]), if Kept(md[|md| - 1].val) then [Entry(md[|md| - 1].key, Str(PyStr(md[|md| - 1].val)))] else []);
    }
  }

  lemma KeysAppend(a: seq<Entry>, b: seq<Entry>)
    ensures Keys(a + b) == Keys(a) + Keys(b)
  {
  }

  /** A dictionary with distinct keys formats to one with distinct keys. */
  lemma {:induction false} FormatKeepsDistinctKeys(md: seq<Entry>)
    requires DistinctKeys(md)
    ensures DistinctKeys(FormattedFields(md))
  {
    if md != [] {
      var init := md[..|md| - 1];
      var last := md[|md| - 1];
      assert DistinctKeys(init);
      FormatKeepsDistinctKeys(init);
      if Kept(last.val) {
        forall e | e in FormattedFields(init)
          ensures e.key != last.key
        {
          FormattedFieldsExact(init, e);
        }
        var f := FormattedFields(init);
        var g := f + [Entry(last.key, Wrap(last.val))];
        forall i, j | 0 <= i < j < |g|
          ensures g[i].key != g[j].key
        {
          if j == |g| - 1 {
            assert g[i] in f;
          }
        }
      }
    }
  }

  /** Flattening a formatted document gives `{k: str(v)}` over the kept entries. */
  lemma {:induction false} FlattenFormattedFields(md: seq<Entry>)
    ensures UnwrappedFields(FormattedFields(md)) == StringifiedKept(md)
  {
    if md != [] {
      var init := md[..|md| - 1];
      var last := md[|md| - 1];
      var f := FormattedFields(init);
      FlattenFormattedFields(init);
      if Kept(last.val) {
        var g := f + [Entry(last.key, Wrap(last.val))];
        assert g[..|g| - 1] == f;
        UnwrapWrap(last.val);
        assert UnwrappedFields(g) == UnwrappedFields(f) + [Entry(last.key, Str(PyStr(last.val)))];
      } else {
        assert FormattedFields(md) == f;
      }
    }
  }

  lemma UnwrapWrap(v: Value)
    ensures Unwrap(Wrap(v)) == Str(PyStr(v))
  {
    assert Keys(Wrap(v).entries) == ["value"];
  }

  lemma WrapUnwrap(w: Value)
    requires TextWrapper(w)
    ensures Kept(Unwrap(w)) && Wrap(Unwrap(w)) == w
  {
    assert Keys(w.entries) == ["value"];
    assert w.entries == [Entry("value", Str(w.entries[0].val.s))];
  }

  /**
   * Round trip, the missing and all-empty cases included: flattening what
   * formatting returns (an absent result read as `None`) yields exactly
   * `{k: str(v)}` over the entries whose value is neither `None` nor `""`.
   */
  lemma RoundTrip(metadata: Option<seq<Entry>>)
    ensures Flatten(OrNone(Format(metadata))) == if metadata.None? then [] else StringifiedKept(metadata.value)
  {
    if metadata.Some? {
      var md := metadata.value;
      var f := FormattedFields(md);
      FlattenFormattedFields(md);
      if f == [] {
        assert StringifiedKept(md) == UnwrappedFields([]) == [];
      } else {
        assert FieldsOf(Nested(f)) == Some(f);
      }
    }
  }

  /** Each flat entry keeps its field's key; its value is the `"value"` entry, or `str` of the field. */
  lemma {:induction false} UnwrappedAt(fs: seq<Entry>, i: nat)
    requires i < |fs|
    ensures |UnwrappedFields(fs)| == |fs| && UnwrappedFields(fs)[i].key == fs[i].key
    ensures HasKey(fs[i].val, "value") ==> UnwrappedFields(fs)[i].val == Get(fs[i].val.entries, "value").value
    ensures !HasKey(fs[i].val, "value") ==> UnwrappedFields(fs)[i].val == Str(PyStr(fs[i].val))
  {
    if i < |fs| - 1 {
      UnwrappedAt(fs[..|fs| - 1], i);
    }
  }

  /** `{"value": s}` for a non-empty string `s`. */
  predicate TextWrapper(w: Value)
  {
    w.Dict? && |w.entries| == 1 && w.entries[0].key == "value"
    && w.entries[0].val.Str? && w.entries[0].val.s != ""
  }

  /** A document in exactly the nested shape, every value a non-empty string. */
  predicate NucliaShaped(v: Value)
  {
    && v.Dict? && |v.entries| == 1 && v.entries[0].key == "fields"
    && v.entries[0].val.Dict?
    && var fs := v.entries[0].val.entries;
       && fs != []
       && forall i :: 0 <= i < |fs| ==> TextWrapper(fs[i].val)
  }

  /** The other direction: formatting the flattening of a nested document gives it back. */
  lemma FormatFlattenedNested(v: Value)
    requires NucliaShaped(v)
    ensures Format(Some(Flatten(v))) == Some(v)
  {
    var fs := v.entries[0].val.entries;
    assert Keys(v.entries) == ["fields"];
    assert FieldsOf(v) == Some(fs);
    FormatUnwrapped(fs);
    assert v.entries == [Entry("fields", Dict(fs))];
  }

  lemma {:induction false} FormatUnwrapped(fs: seq<Entry>)
    requires forall i :: 0 <= i < |fs| ==> TextWrapper(fs[i].val)
    ensures FormattedFields(UnwrappedFields(fs)) == fs
  {
    if fs != [] {
      var init := fs[..|fs| - 1];
      var last := fs[|fs| - 1];
      FormatUnwrapped(init);
      var u := UnwrappedFields(fs);
      assert u[..|u| - 1] == UnwrappedFields(init);
      WrapUnwrap(last.val);
      assert fs == init + [last];
    }
  }
}
