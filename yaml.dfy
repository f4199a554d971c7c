// Values produced by the YAML reader that the model description is parsed
// with: the Java objects a `Map<String, Object>` read from rdf.yaml can hold.
module Yaml {
  import opened Wrappers

  /** One YAML value as the Java side sees it after parsing.
      A mapping keeps its keys in the order the map iterates them. Java's
      text for a floating-point number (`"" + v`) is carried alongside its
      value, because that formatting is not part of this model. */
  datatype Value =
    | Str(s: string)
    | Double(d: real, text: string)
    | Float(f: real, text: string)
    | Long(l: int)
    | Integer(i: int)
    | Bool(b: bool)
    | List(items: seq<Value>)
    | Map(entries: seq<(string, Value)>)
    | Null

  /** Map.get on a mapping read from YAML: the value of the first entry with
      that key (the keys of a parsed mapping are distinct). */
  function Get(entries: seq<(string, Value)>, key: string): Option<Value>
    decreases |entries|
  {
    if |entries| == 0 then None
    else if entries[0].0 == key then Some(entries[0].1)
    else Get(entries[1..], key)
  }

  /** get finds a value exactly when an entry has the key, and the value it
      finds is the one the first such entry holds. */
  lemma {:induction false} GetFound(entries: seq<(string, Value)>, key: string)
    ensures Get(entries, key).Some? <==> exists i :: 0 <= i < |entries| && entries[i].0 == key
    ensures Get(entries, key).Some? ==>
              exists i :: (0 <= i < |entries| && entries[i] == (key, Get(entries, key).value) &&
                           forall j :: 0 <= j < i ==> entries[j].0 != key)
    decreases |entries|
  {
    if |entries| > 0 && entries[0].0 != key {
      GetFound(entries[1..], key);
      assert forall i :: 1 <= i < |entries| ==> entries[i] == entries[1..][i - 1];
      if Get(entries, key).Some? {
        var i :| 0 <= i < |entries[1..]| && entries[1..][i] == (key, Get(entries, key).value) &&
                 forall j :: 0 <= j < i ==> entries[1..][j].0 != key;
        assert entries[i + 1] == (key, Get(entries, key).value);
      }
    }
  }
}
