/** A browser `FormData` buffer: an ordered list of key/value entries, where a key may
    occur more than once. */
module FormDataBuffer {
  import opened Wrappers

  /** A form value: a text, or a chosen file (named by its file name). */
  datatype Value = Text(text: string) | Upload(file: string)

  type Entry = (string, Value)

  /** The value a server reading the form as a Django `QueryDict` gets for `key`: the last
      one appended. */
  function LastValue(entries: seq<Entry>, key: string): (r: Option<Value>)
    ensures r.None? <==> forall i :: 0 <= i < |entries| ==> entries[i].0 != key
    ensures r.Some? ==> (key, r.value) in entries
  {
    if entries == [] then None
    else if entries[|entries| - 1].0 == key then Some(entries[|entries| - 1].1)
    else LastValue(entries[..|entries| - 1], key)
  }

  /** A later entry for the same key hides every earlier one. */
  lemma {:induction false} LastValueOfAppend(entries: seq<Entry>, key: string, v: Value, later: seq<Entry>)
    requires forall i :: 0 <= i < |later| ==> later[i].0 != key
    ensures LastValue(entries + [(key, v)] + later, key) == Some(v)
    decreases |later|
  {
    if later != [] {
      var prefix := entries + [(key, v)] + later[..|later| - 1];
      assert (entries + [(key, v)] + later)[..|entries + [(key, v)] + later| - 1] == prefix;
      LastValueOfAppend(entries, key, v, later[..|later| - 1]);
    } else {
      assert entries + [(key, v)] + later == entries + [(key, v)];
    }
  }

  /** The keys of the entries, in order. */
  function Keys(entries: seq<Entry>): (r: seq<string>)
    ensures |r| == |entries| && forall i :: 0 <= i < |entries| ==> r[i] == entries[i].0
  {
    seq(|entries|, i requires 0 <= i < |entries| => entries[i].0)
  }

  class FormData {
    var entries: seq<Entry>

    /** `new FormData()`. */
    constructor ()
      ensures entries == []
    {
      entries := [];
    }

    /** `formData.append(key, value)`. */
    method Append(key: string, value: Value)
      modifies this
      ensures entries == old(entries) + [(key, value)]
    {
      entries := entries + [(key, value)];
    }
  }
}
