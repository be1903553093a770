/** Turning .env entries into Spring system properties: each key is
    lower-cased and every '_' in it becomes '.', the value is kept, and the
    entries are set one after the other, so a later entry overwrites an
    earlier one that converts to the same key. Lower-casing is modelled for
    ASCII only. */
module EnvKeys {

  /** String.toLowerCase on one ASCII character. */
  function LowerChar(c: char): char {
    if 'A' <= c <= 'Z' then (c as int + 32) as char else c
  }

  function ToLowerCase(s: string): (r: string)
    ensures |r| == |s|
    ensures forall i :: 0 <= i < |s| ==> r[i] == LowerChar(s[i])
    decreases |s|
  {
    if s == [] then [] else [LowerChar(s[0])] + ToLowerCase(s[1..])
  }

  /** String.replace with one-character target and replacement. */
  function Replace(s: string, from: char, to: char): (r: string)
    ensures |r| == |s|
    ensures forall i :: 0 <= i < |s| ==> r[i] == (if s[i] == from then to else s[i])
    decreases |s|
  {
    if s == [] then [] else [if s[0] == from then to else s[0]] + Replace(s[1..], from, to)
  }

  /** key.toLowerCase().replace("_", "."): same length, no '_' left, and
      position by position A-Z become a-z, '_' becomes '.', and every other
      character stays. */
  function SpringKey(key: string): (r: string)
    ensures |r| == |key|
    ensures forall i :: 0 <= i < |r| ==> r[i] != '_'
    ensures forall i :: 0 <= i < |key| ==>
      && ('A' <= key[i] <= 'Z' ==> r[i] == (key[i] as int + 32) as char)
      && (key[i] == '_' ==> r[i] == '.')
      && (!('A' <= key[i] <= 'Z') && key[i] != '_' ==> r[i] == key[i])
  {
    Replace(ToLowerCase(key), '_', '.')
  }

  /** Converting an already converted key changes nothing. */
  lemma SpringKeyIdempotent(key: string)
    ensures SpringKey(SpringKey(key)) == SpringKey(key)
  {
    var once := SpringKey(key);
    var twice := SpringKey(once);
    forall i | 0 <= i < |once| ensures twice[i] == once[i] {
      assert !('A' <= once[i] <= 'Z');
    }
  }

  /** One .env entry. */
  datatype Entry = Entry(key: string, value: string)

  /** The converted keys of a list of entries. */
  function Keys(entries: seq<Entry>): set<string> {
    set i | 0 <= i < |entries| :: SpringKey(entries[i].key)
  }

  /** Entry i is the last one whose key converts to its converted key. */
  predicate LastWithKey(entries: seq<Entry>, i: int)
    requires 0 <= i < |entries|
  {
    forall j :: i < j < |entries| ==> SpringKey(entries[j].key) != SpringKey(entries[i].key)
  }

  /** System.setProperty(SpringKey(key), value) for each entry in turn,
      starting from the properties already set. */
  function SetProperties(props: map<string, string>, entries: seq<Entry>): (r: map<string, string>)
    ensures props.Keys <= r.Keys
    ensures forall i :: 0 <= i < |entries| ==> SpringKey(entries[i].key) in r
    decreases |entries|
  {
    if entries == [] then props
    else
      var rest := entries[1..];
      var r := SetProperties(props[SpringKey(entries[0].key) := entries[0].value], rest);
      assert forall i :: 1 <= i < |entries| ==> entries[i] == rest[i - 1];
      r
  }

  lemma KeysCons(entries: seq<Entry>)
    requires entries != []
    ensures Keys(entries) == {SpringKey(entries[0].key)} + Keys(entries[1..])
  {
    var rest := entries[1..];
    forall x | x in Keys(entries) ensures x in {SpringKey(entries[0].key)} + Keys(rest) {
      var i :| 0 <= i < |entries| && SpringKey(entries[i].key) == x;
      if i > 0 {
        assert SpringKey(rest[i - 1].key) == x;
      }
    }
    forall x | x in Keys(rest) ensures x in Keys(entries) {
      var i :| 0 <= i < |rest| && SpringKey(rest[i].key) == x;
      assert SpringKey(entries[i + 1].key) == x;
    }
  }

  /** Each entry yields one property: the properties set afterwards are the
      earlier ones plus one per converted key, and a property no entry names
      keeps its value. */
  lemma {:induction false} SetPropertiesKeys(props: map<string, string>, entries: seq<Entry>)
    ensures SetProperties(props, entries).Keys == props.Keys + Keys(entries)
    ensures forall k :: k in props && k !in Keys(entries) ==> SetProperties(props, entries)[k] == props[k]
    decreases |entries|
  {
    if entries != [] {
      var k := SpringKey(entries[0].key);
      KeysCons(entries);
      SetPropertiesKeys(props[k := entries[0].value], entries[1..]);
    }
  }

  /** The value a converted key ends up with is the value of the last entry
      whose key converts to it, passed through unchanged. */
  lemma {:induction false} SetPropertiesLastWins(props: map<string, string>, entries: seq<Entry>, i: int)
    requires 0 <= i < |entries| && LastWithKey(entries, i)
    ensures SpringKey(entries[i].key) in SetProperties(props, entries)
    ensures SetProperties(props, entries)[SpringKey(entries[i].key)] == entries[i].value
    decreases |entries|
  {
    var k := SpringKey(entries[0].key);
    var props' := props[k := entries[0].value];
    var rest := entries[1..];
    SetPropertiesKeys(props', rest);
    if i == 0 {
      forall j | 0 <= j < |rest| ensures SpringKey(rest[j].key) != k {
        assert rest[j] == entries[j + 1];
      }
      assert k !in Keys(rest);
    } else {
      assert LastWithKey(rest, i - 1) by {
        forall j | i - 1 < j < |rest| ensures SpringKey(rest[j].key) != SpringKey(rest[i - 1].key) {
          assert rest[j] == entries[j + 1];
        }
      }
      SetPropertiesLastWins(props', rest, i - 1);
    }
  }
}
