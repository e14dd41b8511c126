/** The algorithm selector: a list of candidate algorithms, the list of
    enabled entries `{id, name, params}` and the focused candidate. Candidates,
    entries and the enabled list are JavaScript objects that the component
    writes in place, so they are modelled as Dafny objects; ids and names
    never change after creation and are constant fields. */
module Algorithm {
  import opened Common

  /** A candidate algorithm; the component writes its `checked` flag. */
  class Candidate {
    const id: string
    const name: string
    var checked: bool

    constructor (id: string, name: string)
      ensures this.id == id && this.name == name && !checked
    {
      this.id := id;
      this.name := name;
      checked := false;
    }
  }

  /** An enabled algorithm; `onItemChange` overwrites its `params` in place. */
  class Entry {
    const id: string
    const name: string
    var params: JsObject

    constructor (id: string, name: string, params: JsObject)
      ensures this.id == id && this.name == name && this.params == params
    {
      this.id := id;
      this.name := name;
      this.params := params;
    }
  }

  /** A JavaScript array of enabled entries: a reference whose contents
      `push` extends in place. */
  class EntryList {
    var items: seq<Entry>

    constructor (items: seq<Entry>)
      ensures this.items == items
    {
      this.items := items;
    }
  }

  /** Some entry of `v` carries this id. */
  predicate HasId(v: seq<Entry>, id: string)
  {
    exists k :: 0 <= k < |v| && v[k].id == id
  }

  /** The first entry of `v` with this id, if there is one. */
  function Find(v: seq<Entry>, id: string): (r: Option<Entry>)
    ensures r.None? <==> !HasId(v, id)
    ensures r.Some? ==> r.value in v && r.value.id == id
  {
    if |v| == 0 then None
    else if v[0].id == id then Some(v[0])
    else
      var r := Find(v[1..], id);
      assert forall k :: 1 <= k < |v| ==> v[k] == v[1..][k - 1];
      r
  }

  /** Entry `k` is the first entry of `v` with this id. */
  predicate IsFirst(v: seq<Entry>, id: string, k: int)
  {
    0 <= k < |v| && v[k].id == id && forall j :: 0 <= j < k ==> v[j].id != id
  }

  /** `find` returns the first entry with the id, not merely some entry. */
  lemma {:induction false} FindIsFirst(v: seq<Entry>, id: string, k: int)
    requires IsFirst(v, id, k)
    ensures Find(v, id) == Some(v[k])
  {
    if k > 0 {
      assert IsFirst(v[1..], id, k - 1);
      FindIsFirst(v[1..], id, k - 1);
    }
  }

  /** A new list of the entries of `v` whose id differs, in their order. */
  function Without(v: seq<Entry>, id: string): (r: seq<Entry>)
    ensures forall k :: 0 <= k < |r| ==> r[k] in v && r[k].id != id
    ensures forall k :: 0 <= k < |v| && v[k].id != id ==> v[k] in r
    ensures !HasId(r, id)
    ensures |r| <= |v|
  {
    if |v| == 0 then []
    else if v[0].id == id then Without(v[1..], id)
    else [v[0]] + Without(v[1..], id)
  }

  /** How many entries of `v` carry this id. */
  function CountId(v: seq<Entry>, id: string): (n: nat)
    ensures n <= |v|
    ensures n == 0 <==> !HasId(v, id)
  {
    if |v| == 0 then 0
    else
      var rest := CountId(v[1..], id);
      assert forall k :: 1 <= k < |v| ==> v[k] == v[1..][k - 1];
      (if v[0].id == id then 1 else 0) + rest
  }

  /** Filtering distributes over concatenation, so it keeps the relative
      order of the entries it keeps. */
  lemma {:induction false} WithoutAppend(a: seq<Entry>, b: seq<Entry>, id: string)
    ensures Without(a + b, id) == Without(a, id) + Without(b, id)
  {
    if |a| > 0 {
      assert (a + b)[1..] == a[1..] + b;
      WithoutAppend(a[1..], b, id);
    } else {
      assert a + b == b;
    }
  }

  /** Unchecking removes every entry with the id, and only those. */
  lemma {:induction false} WithoutCount(v: seq<Entry>, id: string)
    ensures |Without(v, id)| == |v| - CountId(v, id)
  {
    if |v| > 0 {
      WithoutCount(v[1..], id);
    }
  }

  /** Filtering out an id that no entry carries changes nothing. */
  lemma {:induction false} WithoutAbsent(v: seq<Entry>, id: string)
    requires !HasId(v, id)
    ensures Without(v, id) == v
  {
    if |v| > 0 {
      assert v[0].id != id;
      assert !HasId(v[1..], id) by {
        forall k | 0 <= k < |v[1..]| ensures v[1..][k].id != id {
          assert v[1..][k] == v[k + 1];
        }
      }
      WithoutAbsent(v[1..], id);
      assert v == [v[0]] + v[1..];
    }
  }

  /** Unchecking undoes checking: both drop the appended entry, and when the
      id was not enabled before, the list is back to what it was. */
  lemma CheckThenUncheck(v: seq<Entry>, e: Entry)
    ensures Without(v + [e], e.id) == Without(v, e.id)
    ensures !HasId(v, e.id) ==> Without(v + [e], e.id) == v
  {
    WithoutAppend(v, [e], e.id);
    assert Without([e], e.id) == [];
    if !HasId(v, e.id) {
      WithoutAbsent(v, e.id);
    }
  }

  /** Entries with other ids are untouched by the filter. */
  lemma {:induction false} WithoutKeepsOthers(v: seq<Entry>, id: string, other: string)
    requires other != id
    ensures CountId(Without(v, id), other) == CountId(v, other)
  {
    if |v| > 0 {
      WithoutKeepsOthers(v[1..], id, other);
    }
  }

  /** Checking appends without looking for the id first: an id that is
      already enabled ends up enabled twice. */
  lemma {:induction false} AppendCount(v: seq<Entry>, e: Entry)
    ensures CountId(v + [e], e.id) == CountId(v, e.id) + 1
  {
    if |v| > 0 {
      assert (v + [e])[1..] == v[1..] + [e];
      AppendCount(v[1..], e);
    } else {
      assert (v + [e])[1..] == [];
    }
  }

  lemma HasIdAppend(v: seq<Entry>, e: Entry, id: string)
    ensures HasId(v + [e], id) <==> HasId(v, id) || e.id == id
  {
    if HasId(v + [e], id) && e.id != id {
      var k :| 0 <= k < |v + [e]| && (v + [e])[k].id == id;
      assert k < |v| && v[k].id == id;
    }
    if HasId(v, id) {
      var k :| 0 <= k < |v| && v[k].id == id;
      assert (v + [e])[k].id == id;
    }
    if e.id == id {
      assert (v + [e])[|v|].id == id;
    }
  }

  lemma HasIdWithout(v: seq<Entry>, id: string, other: string)
    ensures HasId(Without(v, id), other) <==> other != id && HasId(v, other)
  {
  }

  /** A snapshot of one entry, as `JSON.stringify` sees it. */
  datatype EntryValue = EntryValue(id: string, name: string, params: JsObject)

  /** The structural value of a list of entries in the current heap. */
  function Values(v: seq<Entry>): (r: seq<EntryValue>)
    reads set e | e in v
    ensures |r| == |v|
    ensures forall k :: 0 <= k < |v| ==> r[k] == EntryValue(v[k].id, v[k].name, v[k].params)
  {
    if |v| == 0 then [] else [EntryValue(v[0].id, v[0].name, v[0].params)] + Values(v[1..])
  }

  /** Two lists with the same snapshot enable the same ids. */
  lemma SameValuesSameIds(a: seq<Entry>, b: seq<Entry>)
    requires Values(a) == Values(b)
    ensures forall id :: HasId(a, id) <==> HasId(b, id)
  {
  }

  /** Every flag of `data` says whether its id is enabled in `v`. */
  predicate FlagsMatch(data: seq<Candidate>, v: seq<Entry>)
    reads set c | c in data
  {
    forall i :: 0 <= i < |data| ==> data[i].checked == HasId(v, data[i].id)
  }

  /** `handleData`: set every candidate's flag from the enabled list, in place,
      and hand back the same array. */
  method HandleData(data: array<Candidate>, value: seq<Entry>) returns (r: array<Candidate>)
    modifies set i | 0 <= i < data.Length :: data[i]
    ensures r == data
    ensures FlagsMatch(data[..], value)
  {
    for i := 0 to data.Length
      invariant forall j :: 0 <= j < i ==> data[j].checked == HasId(value, data[j].id)
    {
      data[i].checked := HasId(value, data[i].id);
    }
    r := data;
  }

  /** `single` is what `getSingleValue(d, v)` yields for a list `v` (absent
      when `None`): the first entry with `d`'s id, or else an entry for `d`
      with empty params. */
  predicate IsSingleValue(single: Entry, d: Candidate, v: Option<seq<Entry>>)
    reads single
  {
    var found := if v.Some? then Find(v.value, d.id) else None;
    match found
    case Some(e) => single == e
    case None => single.id == d.id && single.name == d.name && single.params == []
  }

  /** `getSingleValue`: look up the focused candidate among the enabled entries,
      falling back to a new entry with empty params. */
  method GetSingleValue(d: Candidate, v: Option<seq<Entry>>) returns (r: Entry)
    ensures IsSingleValue(r, d, v)
    ensures v.None? || Find(v.value, d.id).None? ==> fresh(r)
  {
    var found := if v.Some? then Find(v.value, d.id) else None;
    match found
    case Some(e) =>
      r := e;
    case None =>
      r := new Entry(d.id, d.name, []);
  }

  /** The component. Props are what the owner passed last; state is the
      component's own. Every `setState` is applied at once, in program order. */
  class Selector {
    var dataProp: array<Candidate>
    var valueProp: EntryList

    var data: array<Candidate>
    var value: EntryList
    var singleData: Option<Candidate>
    var singleValue: Option<Entry>
    var isDisable: bool

    /** The state's candidate list is always the array last passed as a prop. */
    predicate Valid()
      reads this
    {
      data == dataProp && (singleData.Some? <==> singleValue.Some?)
    }

    /** Flag-equals-membership: each candidate is checked exactly when the
        enabled list holds an entry with its id. */
    predicate Synced()
      reads this, data, set i | 0 <= i < data.Length :: data[i], value
    {
      FlagsMatch(data[..], value.items)
    }

    /** The constructor: focus the first candidate, if any, and derive flags. */
    constructor (data: array<Candidate>, value: EntryList)
      modifies set i | 0 <= i < data.Length :: data[i]
      ensures Valid() && Synced()
      ensures dataProp == data && valueProp == value
      ensures this.data == data && this.value == value && isDisable
      ensures data.Length == 0 ==> singleData == None
      ensures data.Length > 0 ==>
        singleData == Some(data[0]) && IsSingleValue(singleValue.value, data[0], Some(value.items))
    {
      var focus: Option<Candidate> := None;
      var single: Option<Entry> := None;
      if data.Length > 0 {
        focus := Some(data[0]);
        var s := GetSingleValue(data[0], Some(value.items));
        single := Some(s);
      }
      dataProp := data;
      valueProp := value;
      this.value := value;
      singleData := focus;
      singleValue := single;
      isDisable := true;
      this.data := data;
      new;
      var flagged := HandleData(data, value.items);
      this.data := flagged;
    }

    /** `onListChange`: move the focus; the enabled list is left alone. */
    method ListChange(d: Candidate)
      requires Valid()
      modifies this
      ensures Valid()
      ensures singleData == Some(d) && IsSingleValue(singleValue.value, d, Some(value.items))
      ensures value == old(value) && data == old(data) && isDisable == old(isDisable)
      ensures dataProp == old(dataProp) && valueProp == old(valueProp)
    {
      var s := GetSingleValue(d, Some(value.items));
      singleData := Some(d);
      singleValue := Some(s);
    }

    /** `onSwitchChange`: enable or disable `d`, refocus on it, and emit the
        new list. Enabling pushes onto the state's own array (which the owner
        may share); disabling builds a new array. */
    method SwitchChange(checked: bool, d: Candidate) returns (emitted: EntryList)
      requires Valid()
      modifies this, d, value
      ensures Valid()
      ensures d.checked == checked
      ensures checked ==>
        value == old(value) && |value.items| == |old(value.items)| + 1 &&
        value.items[..|old(value.items)|] == old(value.items)
      ensures checked ==> var e := value.items[|old(value.items)|];
        fresh(e) && e.id == d.id && e.name == d.name && e.params == []
      ensures checked && old(valueProp) == old(value) ==> valueProp.items == value.items
      ensures !checked ==> fresh(value) && value.items == Without(old(value.items), d.id)
      ensures !checked ==> old(value).items == old(value.items)
      ensures emitted == value
      ensures singleData == Some(d) && fresh(singleValue.value) && singleValue.value !in value.items
      ensures singleValue.value.id == d.id && singleValue.value.name == d.name && singleValue.value.params == []
      ensures isDisable
      ensures data == old(data) && dataProp == old(dataProp) && valueProp == old(valueProp)
      ensures old(Synced()) && (forall c :: c in data[..] && c.id == d.id ==> c == d) ==> Synced()
    {
      ghost var before := value.items;
      d.checked := checked;
      var newValue := value;
      if checked {
        var e := new Entry(d.id, d.name, []);
        newValue.items := newValue.items + [e];
        forall id {
          HasIdAppend(before, e, id);
        }
      } else {
        newValue := new EntryList(Without(newValue.items, d.id));
        forall id {
          HasIdWithout(before, d.id, id);
        }
      }
      var s := new Entry(d.id, d.name, []);
      singleData := Some(d);
      singleValue := Some(s);
      value := newValue;
      isDisable := true;
      emitted := newValue;
    }

    /** `onItemChange`: overwrite `params` on every enabled entry with this id,
        in place, and emit a new array holding the same entries. */
    method ItemChange(id: string, params: JsObject) returns (emitted: EntryList)
      modifies set e | e in value.items
      ensures fresh(emitted) && emitted.items == value.items
      ensures forall e :: e in value.items ==> e.params == if e.id == id then params else old(e.params)
      ensures Values(value.items) == ReplaceParams(old(Values(value.items)), id, params)
    {
      var items := value.items;
      for i := 0 to |items|
        invariant forall e :: e in items ==>
          e.params == if e.id == id && e in items[..i] then params else old(e.params)
      {
        if items[i].id == id {
          items[i].params := params;
        }
      }
      emitted := new EntryList(items);
    }

    /** `componentWillReceiveProps`: adopt new props. A new candidate array
        re-derives the flags; an enabled list with a different snapshot also
        replaces the state's list and recomputes the focused entry. */
    method ReceiveProps(nextData: array<Candidate>, nextValue: EntryList)
      requires Valid()
      modifies this, set i | 0 <= i < nextData.Length :: nextData[i]
      ensures Valid()
      ensures dataProp == nextData && valueProp == nextValue && data == nextData
      ensures singleData == old(singleData)
      ensures old(Values(valueProp.items) != Values(nextValue.items)) ==>
        value == nextValue && isDisable && Synced()
      ensures old(Values(valueProp.items) != Values(nextValue.items)) && singleData.Some? ==>
        IsSingleValue(singleValue.value, singleData.value, Some(nextValue.items))
      ensures old(Values(valueProp.items) == Values(nextValue.items)) ==>
        value == old(value) && singleValue == old(singleValue) && isDisable == old(isDisable)
      ensures old(dataProp) != nextData ==> FlagsMatch(nextData[..], nextValue.items)
      ensures old(dataProp) != nextData && old(value) == old(valueProp) ==> Synced()
      ensures old(dataProp) == nextData && old(Values(valueProp.items) == Values(nextValue.items)) ==>
        forall i :: 0 <= i < nextData.Length ==> nextData[i].checked == old(nextData[i].checked)
      ensures old(dataProp) == nextData && old(Values(valueProp.items) == Values(nextValue.items)) ==>
        (old(Synced()) ==> Synced())
    {
      var valueChanged := Values(valueProp.items) != Values(nextValue.items);
      if !valueChanged {
        SameValuesSameIds(valueProp.items, nextValue.items);
      }
      if dataProp != nextData {
        data := HandleData(nextData, nextValue.items);
      }
      if valueChanged {
        AdoptValue(nextData, nextValue);
      }
      dataProp := nextData;
      valueProp := nextValue;
    }

    /** The deferred half of `componentWillReceiveProps` for a changed enabled
        list: hide the detail pane, take the new list, re-derive the flags and
        the focused entry, and show the pane again. */
    method AdoptValue(nextData: array<Candidate>, nextValue: EntryList)
      requires singleData.Some? <==> singleValue.Some?
      modifies this, set i | 0 <= i < nextData.Length :: nextData[i]
      ensures data == nextData && value == nextValue && isDisable
      ensures FlagsMatch(nextData[..], nextValue.items)
      ensures singleData == old(singleData)
      ensures singleData.Some? <==> singleValue.Some?
      ensures singleData.Some? ==> IsSingleValue(singleValue.value, singleData.value, Some(nextValue.items))
      ensures dataProp == old(dataProp) && valueProp == old(valueProp)
    {
      data := HandleData(nextData, nextValue.items);
      value := nextValue;
      if singleData.Some? {
        var s := GetSingleValue(singleData.value, Some(nextValue.items));
        singleValue := Some(s);
      }
      isDisable := true;
    }
  }

  /** Replace the params of every snapshot entry with this id. */
  function ReplaceParams(s: seq<EntryValue>, id: string, params: JsObject): (r: seq<EntryValue>)
    ensures |r| == |s|
    ensures forall k :: 0 <= k < |s| ==> r[k].id == s[k].id && r[k].name == s[k].name
    ensures forall k :: 0 <= k < |s| ==> r[k].params == if s[k].id == id then params else s[k].params
  {
    if |s| == 0 then []
    else [if s[0].id == id then s[0].(params := params) else s[0]] + ReplaceParams(s[1..], id, params)
  }

  /** Editing the same params twice is the same as editing them once. */
  lemma ReplaceParamsIdempotent(s: seq<EntryValue>, id: string, params: JsObject)
    ensures ReplaceParams(ReplaceParams(s, id, params), id, params) == ReplaceParams(s, id, params)
  {
  }
}
