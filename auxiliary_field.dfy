/** Maniphest's legacy auxiliary fields (ManiphestAuxiliaryFieldSpecification):
    the field's storage key, the handles it keeps, the key under which its
    rendered markup is cached, and how a batch of legacy updates splits into
    rows to delete and rows to write.

    Hashing a key for the storage index and hashing markup text are the
    parameter `digest`. A handle is represented by the PHID it stands for
    and its display name. The value of a field is a string, "" when unset. */
module AuxiliaryField {
  import opened Wrappers
  import opened Seqs
  import opened Strings

  const KeyPrefix := "std:maniphest:"

  datatype Handle = Handle(phid: string, name: string)

  /** getAuxiliaryKey for a set key. */
  function AuxiliaryKeyOf(key: string): string {
    KeyPrefix + key
  }

  /** The set key can be read back from the auxiliary key, so different
      fields have different keys. */
  lemma AuxiliaryKeyRoundTrip(key: string, other: string)
    ensures |AuxiliaryKeyOf(key)| == |KeyPrefix| + |key|
    ensures AuxiliaryKeyOf(key)[..|KeyPrefix|] == KeyPrefix
    ensures AuxiliaryKeyOf(key)[|KeyPrefix|..] == key
    ensures AuxiliaryKeyOf(key) == AuxiliaryKeyOf(other) ==> key == other
  {
    if AuxiliaryKeyOf(key) == AuxiliaryKeyOf(other) {
      assert AuxiliaryKeyOf(other)[|KeyPrefix|..] == other;
    }
  }

  /** array_select_keys: the entries of `m` under the given keys. */
  function SelectKeys<K(!new), V>(m: map<K, V>, keys: seq<K>): (r: map<K, V>)
    ensures forall k :: k in r <==> k in m && k in keys
    ensures forall k :: k in r ==> r[k] == m[k]
  {
    map k | k in m.Keys && k in keys :: m[k]
  }

  class Field {
    var fieldLabel: string
    var auxiliaryKey: string
    var caption: string
    var value: string
    var handles: map<string, Handle>
    /** getRequiredHandlePHIDs, which each kind of field chooses. */
    const requiredHandlePhids: seq<string>

    constructor(requiredHandlePhids: seq<string>)
      ensures this.requiredHandlePhids == requiredHandlePhids
      ensures fieldLabel == "" && auxiliaryKey == "" && caption == "" && value == "" && handles == map[]
    {
      this.requiredHandlePhids := requiredHandlePhids;
      fieldLabel := "";
      auxiliaryKey := "";
      caption := "";
      value := "";
      handles := map[];
    }

    method SetAuxiliaryKey(key: string)
      modifies this
      ensures auxiliaryKey == key && FieldKey() == AuxiliaryKeyOf(key)
      ensures fieldLabel == old(fieldLabel) && caption == old(caption) && value == old(value) && handles == old(handles)
    {
      auxiliaryKey := key;
    }

    method SetValue(v: string)
      modifies this
      ensures value == v && MarkupText() == v
      ensures fieldLabel == old(fieldLabel) && caption == old(caption) && auxiliaryKey == old(auxiliaryKey) && handles == old(handles)
    {
      value := v;
    }

    function AuxiliaryKey(): string
      reads this
    {
      AuxiliaryKeyOf(auxiliaryKey)
    }

    /** getFieldKey: the auxiliary key. */
    function FieldKey(): (r: string)
      reads this
      ensures r == AuxiliaryKey() && r[..|KeyPrefix|] == KeyPrefix
    {
      AuxiliaryKey()
    }

    /** setHandles: only the handles for the PHIDs the field requires. */
    method SetHandles(given: map<string, Handle>)
      modifies this
      ensures handles == SelectKeys(given, requiredHandlePhids)
      ensures fieldLabel == old(fieldLabel) && caption == old(caption) && auxiliaryKey == old(auxiliaryKey) && value == old(value)
    {
      handles := SelectKeys(given, requiredHandlePhids);
    }

    /** getHandle: a handle the field did not keep throws. */
    method GetHandle(phid: string) returns (r: Result<Handle, string>)
      ensures r.Err? <==> phid !in handles
      ensures r.Ok? ==> r.value == handles[phid]
    {
      if phid !in handles {
        return Err("Field is requesting a handle ('" + phid + "') it did not require.");
      }
      r := Ok(handles[phid]);
    }

    /** getMarkupText: the value, whatever the markup field. */
    function MarkupText(): string
      reads this
    {
      value
    }

    /** getMarkupFieldKey. */
    function MarkupFieldKey(digest: string -> string): (r: string)
      reads this
      ensures var head := "maux:" + AuxiliaryKey() + ":";
        |head| <= |r| && r[..|head|] == head && r[|head|..] == digest(value)
    {
      "maux:" + AuxiliaryKey() + ":" + digest(MarkupText())
    }

    /** validate and isRequired: an auxiliary field always validates and is
        never required. */
    function Validate(): (ok: bool)
      ensures ok
    {
      true
    }

    function IsRequired(): (required: bool)
      ensures !required
    {
      false
    }
  }

  /** The cache key of a field's markup names the field: two fields whose
      set keys differ and hold no ':' never share a cache entry. */
  lemma MarkupKeySeparatesFields(f: Field, g: Field, digest: string -> string)
    requires f.auxiliaryKey != g.auxiliaryKey
    requires ':' !in f.auxiliaryKey && ':' !in g.auxiliaryKey
    ensures f.MarkupFieldKey(digest) != g.MarkupFieldKey(digest)
  {
    var a := f.auxiliaryKey;
    var b := g.auxiliaryKey;
    var head := "maux:" + KeyPrefix;
    var restF := a + [':'] + digest(f.value);
    var restG := b + [':'] + digest(g.value);
    assert f.MarkupFieldKey(digest) == head + restF;
    assert g.MarkupFieldKey(digest) == head + restG;
    assert (head + restF)[|head|..] == restF && (head + restG)[|head|..] == restG;
    IndexOfConcat(a, ':', digest(f.value));
    IndexOfConcat(b, ':', digest(g.value));
    assert restF[..|a|] == a && restG[..|b|] == b;
  }

  /* -------------------------------------------------------------------- */
  /* writeLegacyAuxiliaryUpdates.                                          */

  /** The storage indexes whose rows are deleted: those of the keys set to
      null, each once, in first-seen order. */
  function Removals(entries: seq<(string, Option<string>)>, digest: string -> string): (r: seq<string>)
    ensures NoDuplicates(r)
  {
    if entries == [] then []
    else
      var prev := Removals(entries[..|entries| - 1], digest);
      var (key, v) := entries[|entries| - 1];
      if v.None? && digest(key) !in prev then
        NoDuplicatesSnoc(prev, digest(key));
        prev + [digest(key)]
      else prev
  }

  /** The storage indexes written and their values: for each index, the
      last non-null value given for it. */
  function Updates(entries: seq<(string, Option<string>)>, digest: string -> string): map<string, string> {
    if entries == [] then map[]
    else
      var prev := Updates(entries[..|entries| - 1], digest);
      var (key, v) := entries[|entries| - 1];
      if v.Some? then prev[digest(key) := v.value] else prev
  }

  /** The loop of writeLegacyAuxiliaryUpdates; the two queries it then
      sends are not part of this model. */
  method WriteLegacyAuxiliaryUpdates(entries: seq<(string, Option<string>)>, digest: string -> string)
    returns (remove: seq<string>, update: map<string, string>)
    ensures remove == Removals(entries, digest) && update == Updates(entries, digest)
  {
    remove := [];
    update := map[];
    for k := 0 to |entries|
      invariant remove == Removals(entries[..k], digest) && update == Updates(entries[..k], digest)
    {
      assert entries[..k + 1][..k] == entries[..k];
      var (key, v) := entries[k];
      var index := digest(key);
      if v.None? {
        if index !in remove {
          remove := remove + [index];
        }
      } else {
        update := update[index := v.value];
      }
    }
    assert entries[..|entries|] == entries;
  }

  /** An index is deleted exactly when some key with that digest is set to
      null; no index is deleted twice. */
  lemma {:induction false} RemovalsAreNullKeys(entries: seq<(string, Option<string>)>, digest: string -> string)
    ensures NoDuplicates(Removals(entries, digest))
    ensures forall d :: d in Removals(entries, digest) <==>
      exists i :: 0 <= i < |entries| && entries[i].1.None? && digest(entries[i].0) == d
  {
    if entries != [] {
      var init := entries[..|entries| - 1];
      RemovalsAreNullKeys(init, digest);
      assert forall i :: 0 <= i < |init| ==> init[i] == entries[i];
    }
  }

  /** An index is written exactly when some key with that digest has a
      value, and it is written with the value of the last such key. */
  lemma {:induction false} UpdatesAreLastValues(entries: seq<(string, Option<string>)>, digest: string -> string)
    ensures forall d :: d in Updates(entries, digest) <==>
      exists i :: 0 <= i < |entries| && entries[i].1.Some? && digest(entries[i].0) == d
    ensures forall d :: d in Updates(entries, digest) ==>
      exists i :: WrittenFrom(entries, digest, d, Updates(entries, digest)[d], i)
  {
    if entries != [] {
      var init := entries[..|entries| - 1];
      var n := |entries| - 1;
      UpdatesAreLastValues(init, digest);
      assert forall i :: 0 <= i < |init| ==> init[i] == entries[i];
      var u := Updates(entries, digest);
      forall d | d in u
        ensures exists i :: WrittenFrom(entries, digest, d, u[d], i)
      {
        if entries[n].1.Some? && digest(entries[n].0) == d {
          assert WrittenFrom(entries, digest, d, u[d], n);
        } else {
          var i :| WrittenFrom(init, digest, d, Updates(init, digest)[d], i);
          assert WrittenFrom(entries, digest, d, u[d], i);
        }
      }
    }
  }

  /** Entry i gives index d the value v, and no later entry gives d a value. */
  predicate WrittenFrom(entries: seq<(string, Option<string>)>, digest: string -> string, d: string, v: string, i: int) {
    0 <= i < |entries| && entries[i].1 == Some(v) && digest(entries[i].0) == d && LastWithValue(entries, digest, d, i)
  }

  /** No entry after position i gives a value for index d. */
  predicate LastWithValue(entries: seq<(string, Option<string>)>, digest: string -> string, d: string, i: int) {
    forall j :: 0 <= j < |entries| && i < j ==> !(entries[j].1.Some? && digest(entries[j].0) == d)
  }
}
