/** The top-level table of a format-preserving TOML document, seen only
    through its keys and values: an ordered sequence of entries whose keys
    are pairwise distinct. Comments, whitespace and nested structure are
    not represented; a value is either a string or something else. */
module TomlTables {
  import opened Results

  datatype Item = Str(text: string) | Other

  type Entry = (string, Item)

  ghost predicate UniqueKeys(entries: seq<Entry>) {
    forall i, j :: 0 <= i < j < |entries| ==> entries[i].0 != entries[j].0
  }

  /** A top-level table; TOML forbids a key from appearing twice. */
  type Table = entries: seq<Entry> | UniqueKeys(entries) witness []

  function Keys(t: seq<Entry>): set<string> {
    set i | 0 <= i < |t| :: t[i].0
  }

  lemma KeysCons(e: Entry, t: seq<Entry>)
    ensures Keys([e] + t) == {e.0} + Keys(t)
  {
    var u := [e] + t;
    forall k | k in Keys(u) ensures k in {e.0} + Keys(t) {
      var i :| 0 <= i < |u| && u[i].0 == k;
      if i > 0 { assert t[i - 1].0 == k; }
    }
    forall k | k in Keys(t) ensures k in Keys(u) {
      var i :| 0 <= i < |t| && t[i].0 == k;
      assert u[i + 1].0 == k;
    }
    assert u[0].0 == e.0;
  }

  /** The table holds the entry `key = item`. */
  ghost predicate HasEntry(t: seq<Entry>, key: string, item: Item) {
    (key, item) in t
  }

  /** Looks a key up; with distinct keys the answer is the one entry bearing it. */
  function Get(t: Table, key: string): (r: Option<Item>)
    ensures r.Some? <==> key in Keys(t)
    ensures forall item :: r == Some(item) <==> HasEntry(t, key, item)
  {
    if |t| == 0 then None
    else if t[0].0 == key then
      assert forall item :: HasEntry(t, key, item) ==> item == t[0].1;
      Some(t[0].1)
    else
      var rest: Table := t[1..];
      assert Keys(t) == {t[0].0} + Keys(rest);
      assert forall item :: HasEntry(t, key, item) <==> HasEntry(rest, key, item);
      Get(rest, key)
  }

  function ContainsKey(t: Table, key: string): (b: bool)
    ensures b <==> exists item :: HasEntry(t, key, item)
  {
    Get(t, key).Some?
  }

  /** Inserts or replaces the value of `key`. A replaced entry keeps its
      position; a new entry goes at the end. Also returns the previous value. */
  function Insert(t: Table, key: string, item: Item): (r: (Table, Option<Item>))
    ensures r.1 == Get(t, key)
    ensures Get(r.0, key) == Some(item)
    ensures forall k :: k != key ==> Get(r.0, k) == Get(t, k)
    ensures Keys(r.0) == Keys(t) + {key}
    ensures |r.0| == if r.1.Some? then |t| else |t| + 1
  {
    if |t| == 0 then
      ([(key, item)], None)
    else if t[0].0 == key then
      var rest: Table := t[1..];
      assert Keys(t) == {key} + Keys(rest);
      var u: Table := [(key, item)] + rest;
      KeysCons((key, item), rest);
      (u, Some(t[0].1))
    else
      var rest: Table := t[1..];
      assert Keys(t) == {t[0].0} + Keys(rest);
      var (rest', previous) := Insert(rest, key, item);
      assert t[0].0 !in Keys(rest');
      var u: Table := [t[0]] + rest';
      KeysCons(t[0], rest');
      (u, previous)
  }
}
