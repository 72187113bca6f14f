/** The page's NoticeHistoryIdToPreference: a JavaScript object from
    privacy-notice-history id to a preference that may be undefined.
    A JavaScript object with string keys keeps its keys in insertion order
    (the order `Object.entries` yields them), holds each key once, answers
    `undefined` for a key it lacks, and on assignment keeps the slot of an
    existing key or appends a new one. A record is modelled as that ordered
    list of entries. */
module PreferenceRecord {
  import opened ConsentTypes

  datatype Entry = Entry(key: string, value: Option<UserConsentPreference>)

  type Record = seq<Entry>

  /** The keys of a record, in order (what `Object.keys` yields). */
  function Keys(r: Record): (ks: seq<string>)
    ensures |ks| == |r|
    ensures forall i :: 0 <= i < |r| ==> ks[i] == r[i].key
  {
    if r == [] then [] else [r[0].key] + Keys(r[1..])
  }

  /** No key occurs twice: true of every JavaScript object. */
  ghost predicate WellFormed(r: Record) {
    forall i, j :: 0 <= i < j < |r| ==> r[i].key != r[j].key
  }

  /** Every key holds a defined preference. */
  ghost predicate AllDefined(r: Record) {
    forall i :: 0 <= i < |r| ==> r[i].value.Some?
  }

  /** `r[key]`: the key's value, or undefined when the key is absent. */
  function Get(r: Record, key: string): (v: Option<UserConsentPreference>)
    ensures v.Some? ==> exists i :: 0 <= i < |r| && r[i] == Entry(key, v)
  {
    if r == [] then None
    else if r[0].key == key then r[0].value
    else Get(r[1..], key)
  }

  /** `r[key] = value`, equally `{ ...r, [key]: value }`. */
  function Set(r: Record, key: string, value: UserConsentPreference): (r': Record)
    ensures |r| <= |r'| <= |r| + 1
    ensures Entry(key, Some(value)) in r'
  {
    if r == [] then [Entry(key, Some(value))]
    else if r[0].key == key then [Entry(key, Some(value))] + r[1..]
    else [r[0]] + Set(r[1..], key, value)
  }

  /** Reading a key the record lacks yields undefined. */
  lemma {:induction false} GetAbsent(r: Record, key: string)
    ensures key !in Keys(r) ==> Get(r, key) == None
  {
    if r != [] {
      assert Keys(r) == [r[0].key] + Keys(r[1..]);
      GetAbsent(r[1..], key);
    }
  }

  /** Assigning a key the record lacks appends it as the last entry. */
  lemma {:induction false} SetAbsent(r: Record, key: string, value: UserConsentPreference)
    requires key !in Keys(r)
    ensures Set(r, key, value) == r + [Entry(key, Some(value))]
  {
    if r != [] {
      assert Keys(r) == [r[0].key] + Keys(r[1..]);
      SetAbsent(r[1..], key, value);
      assert [r[0]] + (r[1..] + [Entry(key, Some(value))]) == r + [Entry(key, Some(value))];
    }
  }

  /** The entry at position `i` is the first one with its key. */
  ghost predicate FirstWithKey(r: Record, i: nat)
    requires i < |r|
  {
    forall j :: 0 <= j < i ==> r[j].key != r[i].key
  }

  /** Reading the key stored at position `i`, when no earlier entry has it
      (always so in a well-formed record), yields that entry's value. */
  lemma {:induction false} GetAt(r: Record, i: nat)
    requires i < |r| && FirstWithKey(r, i)
    ensures Get(r, r[i].key) == r[i].value
  {
    if i > 0 {
      assert r[0].key != r[i].key;
      var t := r[1..];
      assert t[i - 1] == r[i];
      assert forall j :: 0 <= j < i - 1 ==> t[j] == r[j + 1];
      GetAt(t, i - 1);
    }
  }

  /** Assigning the key stored at position `i`, when no earlier entry has it,
      replaces that entry's value and leaves every other entry, and the
      order, as it was. */
  lemma {:induction false} SetAt(r: Record, i: nat, value: UserConsentPreference)
    requires i < |r| && FirstWithKey(r, i)
    ensures |Set(r, r[i].key, value)| == |r|
    ensures Set(r, r[i].key, value)[i] == Entry(r[i].key, Some(value))
    ensures forall j :: 0 <= j < |r| && j != i ==> Set(r, r[i].key, value)[j] == r[j]
  {
    if i > 0 {
      assert r[0].key != r[i].key;
      var t := r[1..];
      assert t[i - 1] == r[i];
      assert forall j :: 0 <= j < i - 1 ==> t[j] == r[j + 1];
      SetAt(t, i - 1, value);
    }
  }

  /** The slot the assignment writes, when the key is present. */
  lemma KeyIndex(r: Record, key: string) returns (i: nat)
    requires key in Keys(r)
    ensures i < |r| && r[i].key == key
  {
    i :| i < |Keys(r)| && Keys(r)[i] == key;
  }

  /** Assigning a key leaves the value read at every other key unchanged. */
  lemma {:induction false} SetOther(r: Record, key: string, value: UserConsentPreference, k: string)
    requires k != key
    ensures Get(Set(r, key, value), k) == Get(r, k)
  {
    if r != [] && r[0].key != key {
      SetOther(r[1..], key, value, k);
    }
  }

  /** Assigning a key makes it read as the new value. */
  lemma {:induction false} SetSame(r: Record, key: string, value: UserConsentPreference)
    ensures Get(Set(r, key, value), key) == Some(value)
  {
    if r != [] && r[0].key != key {
      SetSame(r[1..], key, value);
    }
  }

  /** Assigning a present key keeps every key in its slot. */
  lemma {:induction false} SetPresentKeys(r: Record, key: string, value: UserConsentPreference)
    requires key in Keys(r)
    ensures Keys(Set(r, key, value)) == Keys(r)
  {
    if r[0].key != key {
      assert key in Keys(r[1..]);
      SetPresentKeys(r[1..], key, value);
    }
  }

  /** Only the keys, in order, decide whether a record is well formed. */
  lemma SameKeysWellFormed(r: Record, r': Record)
    requires WellFormed(r) && Keys(r') == Keys(r)
    ensures WellFormed(r')
  {
  }

  /** Assigning an absent key appends it. */
  lemma {:induction false} SetAbsentKeys(r: Record, key: string, value: UserConsentPreference)
    requires WellFormed(r) && key !in Keys(r)
    ensures WellFormed(Set(r, key, value))
    ensures Keys(Set(r, key, value)) == Keys(r) + [key]
  {
    SetAbsent(r, key, value);
    var r' := r + [Entry(key, Some(value))];
    assert forall j :: 0 <= j < |r| ==> r'[j] == r[j] && r[j].key != key;
    assert Keys(r') == Keys(r) + [key];
  }

  /** Assignment as the page's toggle uses it: the key then reads as the new
      value, every other key reads as before, the keys keep their order (a new
      key goes last), and the record stays well formed. */
  lemma {:induction false} SetSpec(r: Record, key: string, value: UserConsentPreference)
    requires WellFormed(r)
    ensures WellFormed(Set(r, key, value))
    ensures Get(Set(r, key, value), key) == Some(value)
    ensures forall k :: k != key ==> Get(Set(r, key, value), k) == Get(r, k)
    ensures key in Keys(r) ==> Keys(Set(r, key, value)) == Keys(r)
    ensures key !in Keys(r) ==> Keys(Set(r, key, value)) == Keys(r) + [key]
  {
    SetSame(r, key, value);
    forall k | k != key
      ensures Get(Set(r, key, value), k) == Get(r, k)
    {
      SetOther(r, key, value, k);
    }
    if key in Keys(r) {
      SetPresentKeys(r, key, value);
      SameKeysWellFormed(r, Set(r, key, value));
    } else {
      SetAbsentKeys(r, key, value);
    }
  }

  /** Assignment stores a defined value, so a record whose values are all
      defined stays so. */
  lemma {:induction false} SetDefined(r: Record, key: string, value: UserConsentPreference)
    requires WellFormed(r)
    ensures AllDefined(r) ==> AllDefined(Set(r, key, value))
  {
    if key in Keys(r) && AllDefined(r) {
      var i := KeyIndex(r, key);
      SetAt(r, i, value);
    } else if key !in Keys(r) {
      SetAbsent(r, key, value);
    }
  }
}
