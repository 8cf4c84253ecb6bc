/** The parsed input document: the tree of Python values PyYAML hands to the
    program, with just the Python operations the core applies to it. */
module Yaml {
  import opened Wrappers
  import opened Text

  /** A YAML node. Mappings keep their entries in document order. */
  datatype Value =
    | Null
    | Bool(b: bool)
    | Int(i: int)
    | Str(s: string)
    | List(items: seq<Value>)
    | Dict(entries: seq<(string, Value)>)

  /** `key in d.keys()`. */
  predicate HasKey(entries: seq<(string, Value)>, key: string)
  {
    exists i :: 0 <= i < |entries| && entries[i].0 == key
  }

  /** `d[key]`: a later duplicate of a key overwrites an earlier one, as when
      PyYAML builds the dict, so the last entry wins. */
  function Get(entries: seq<(string, Value)>, key: string): (r: Option<Value>)
    ensures r.Some? <==> HasKey(entries, key)
  {
    if entries == [] then None
    else
      var last := entries[|entries| - 1];
      if last.0 == key then Some(last.1)
      else
        var r := Get(entries[..|entries| - 1], key);
        assert r.Some? ==> HasKey(entries, key) by {
          if r.Some? {
            var i :| 0 <= i < |entries| - 1 && entries[..|entries| - 1][i].0 == key;
            assert entries[i].0 == key;
          }
        }
        assert HasKey(entries, key) ==> r.Some? by {
          if HasKey(entries, key) {
            var i :| 0 <= i < |entries| && entries[i].0 == key;
            assert entries[..|entries| - 1][i].0 == key;
          }
        }
        r
  }

  /** `d[key]` is the value of the LAST entry with that key: every later entry has another key. */
  lemma {:induction false} GetLastOccurrence(entries: seq<(string, Value)>, key: string)
    requires HasKey(entries, key)
    ensures Get(entries, key).Some?
    ensures exists i :: 0 <= i < |entries| && entries[i] == (key, Get(entries, key).value)
                        && forall j :: i < j < |entries| ==> entries[j].0 != key
    decreases |entries|
  {
    var last := entries[|entries| - 1];
    if last.0 != key {
      var front := entries[..|entries| - 1];
      assert HasKey(front, key) by {
        var i :| 0 <= i < |entries| && entries[i].0 == key;
        assert front[i].0 == key;
      }
      GetLastOccurrence(front, key);
      var v := Get(front, key).value;
      assert Get(entries, key) == Some(v);
      var i :| 0 <= i < |front| && front[i] == (key, v)
               && forall j :: i < j < |front| ==> front[j].0 != key;
      assert entries[i] == (key, v);
      forall j | i < j < |entries| ensures entries[j].0 != key {
        if j < |front| { assert front[j] == entries[j]; }
      }
    }
  }

  /** A value added at the end of a mapping is what `d[key]` then gives. */
  lemma GetAfterAppend(entries: seq<(string, Value)>, key: string, v: Value, other: string)
    ensures Get(entries + [(key, v)], key) == Some(v)
    ensures other != key ==> Get(entries + [(key, v)], other) == Get(entries, other)
  {
    assert (entries + [(key, v)])[..|entries|] == entries;
  }

  /** `d[key]` for a key known to be present. */
  function Field(entries: seq<(string, Value)>, key: string): Value
    requires HasKey(entries, key)
  {
    Get(entries, key).value
  }

  /** Python's `str(v)` for a scalar. The text Python writes for a list or a
      mapping is not part of this model, so those give `None`. */
  function PyStr(v: Value): Option<string>
  {
    match v
    case Null => Some("None")
    case Bool(b) => Some(if b then "True" else "False")
    case Int(i) => Some(IntText(i))
    case Str(s) => Some(s)
    case List(_) => None
    case Dict(_) => None
  }

  /** Python's `int(v)`: an int as is, a bool as 0 or 1, a str by `ParseInt`;
      `None`, lists and mappings raise. */
  function PyInt(v: Value): Option<int>
  {
    match v
    case Int(i) => Some(i)
    case Bool(b) => Some(if b then 1 else 0)
    case Str(s) => ParseInt(s)
    case _ => None
  }

  /** What `for x in v:` visits: the items of a list, the keys of a mapping,
      the one-character strings of a str; other scalars raise TypeError. */
  function Iterate(v: Value): (r: Option<seq<Value>>)
    ensures r.None? <==> v.Null? || v.Bool? || v.Int?
    ensures v.List? ==> r == Some(v.items)
    ensures v.Dict? ==> r.Some? && |r.value| == |v.entries|
                        && forall i :: 0 <= i < |v.entries| ==> r.value[i] == Str(v.entries[i].0)
    ensures v.Str? ==> r.Some? && |r.value| == |v.s|
                       && forall i :: 0 <= i < |v.s| ==> r.value[i] == Str([v.s[i]])
  {
    match v
    case List(items) => Some(items)
    case Dict(entries) => Some(seq(|entries|, i requires 0 <= i < |entries| => Str(entries[i].0)))
    case Str(s) => Some(seq(|s|, i requires 0 <= i < |s| => Str([s[i]])))
    case _ => None
  }
}
