/**
 * `InMemoryKclStorage`: a counter, a dictionary from version id to KCL code and the list
 * of ids in insertion order. Saving bumps the counter and files the code under the
 * counter's decimal string.
 */
module KclStorage {
  import opened Wrappers

  datatype KclVersion = KclVersion(id: string, code: string)

  function DigitChar(d: nat): char
    requires d < 10
  {
    ['0', '1', '2', '3', '4', '5', '6', '7', '8', '9'][d]
  }

  predicate IsDigit(c: char) {
    '0' <= c <= '9'
  }

  function DigitValue(c: char): nat
    requires IsDigit(c)
  {
    (c as int - '0' as int) as nat
  }

  /** `str(n)` for a non-negative int: its decimal digits, most significant first. */
  function NatToString(n: nat): (s: string)
    ensures |s| > 0 && forall i :: 0 <= i < |s| ==> IsDigit(s[i])
    ensures n > 0 ==> s[0] != '0'
    decreases n
  {
    if n < 10 then [DigitChar(n)] else NatToString(n / 10) + [DigitChar(n % 10)]
  }

  /** The number a string of decimal digits denotes (`int(s)` on such a string). */
  function DecimalValue(s: string): nat
    requires forall i :: 0 <= i < |s| ==> IsDigit(s[i])
    decreases |s|
  {
    if |s| == 0 then 0 else 10 * DecimalValue(s[..|s| - 1]) + DigitValue(s[|s| - 1])
  }

  /** Reading back the decimal string gives the number. */
  lemma {:induction false} DecimalRoundTrip(n: nat)
    ensures DecimalValue(NatToString(n)) == n
    decreases n
  {
    var s := NatToString(n);
    if n >= 10 {
      DecimalRoundTrip(n / 10);
      assert s[..|s| - 1] == NatToString(n / 10);
    }
  }

  /** Distinct counters give distinct ids. */
  lemma NatToStringInjective(a: nat, b: nat)
    ensures NatToString(a) == NatToString(b) <==> a == b
  {
    if NatToString(a) == NatToString(b) {
      DecimalRoundTrip(a);
      DecimalRoundTrip(b);
    }
  }

  class InMemoryKclStorage {
    var versions: map<string, string>
    var order: seq<string>
    var counter: nat
    /** The codes in the order they were saved. */
    ghost var saved: seq<string>

    /** The i-th save (from 0) is filed under `str(i + 1)`, and nothing else is filed. */
    ghost predicate Valid()
      reads this
    {
      && |order| == |saved| == counter
      && (forall i :: 0 <= i < |order| ==> order[i] == NatToString(i + 1))
      && (forall i :: 0 <= i < |order| ==> order[i] in versions && versions[order[i]] == saved[i])
      && (forall k :: k in versions ==> k in order)
    }

    /** A fresh store holds no versions and its counter is 0. */
    constructor ()
      ensures Valid()
      ensures versions == map[] && order == [] && counter == 0 && saved == []
    {
      versions := map[];
      order := [];
      counter := 0;
      saved := [];
    }

    /** `save_code`: files `code` under the next counter value and returns that id. */
    method SaveCode(code: string) returns (id: string)
      requires Valid()
      modifies this
      ensures Valid()
      ensures counter == old(counter) + 1 && id == NatToString(counter)
      ensures id !in old(versions)
      ensures versions == old(versions)[id := code]
      ensures order == old(order) + [id]
      ensures saved == old(saved) + [code]
    {
      counter := counter + 1;
      id := NatToString(counter);
      if id in versions {
        var j :| 0 <= j < |order| && order[j] == id;
        NatToStringInjective(j + 1, counter);
        assert false;
      }
      versions := versions[id := code];
      order := order + [id];
      saved := saved + [code];
      forall i | 0 <= i < |order| - 1
        ensures versions[order[i]] == saved[i]
      {
        NatToStringInjective(i + 1, counter);
      }
    }

    /** `get_code`: the code filed under `id`, or None. */
    function GetCode(id: string): Option<string>
      reads this
    {
      if id in versions then Some(versions[id]) else None
    }

    /** An id is found exactly when it is `str(k)` for one of the saves made so far, and it
     *  then gives the code of the k-th save. */
    lemma GetCodeSpec(id: string)
      requires Valid()
      ensures GetCode(id).Some? <==> exists k: nat :: 1 <= k <= |saved| && id == NatToString(k)
      ensures forall k: nat :: 1 <= k <= |saved| && id == NatToString(k) ==> GetCode(id) == Some(saved[k - 1])
    {
      if id in versions {
        var j :| 0 <= j < |order| && order[j] == id;
        assert id == NatToString(j + 1);
      }
      forall k: nat | 1 <= k <= |saved| && id == NatToString(k)
        ensures GetCode(id) == Some(saved[k - 1])
      {
        assert order[k - 1] == id;
      }
    }

    /** `list_versions`: one entry per save, in the order saved. */
    function ListVersions(): (r: seq<KclVersion>)
      reads this
      requires Valid()
      ensures |r| == |saved|
      ensures forall i :: 0 <= i < |r| ==> r[i] == KclVersion(NatToString(i + 1), saved[i])
    {
      Entries(order, versions)
    }

    /** An id that is not a decimal number, such as "does-not-exist", is never found. */
    lemma UnknownIdNotFound(id: string)
      requires Valid()
      requires exists i :: 0 <= i < |id| && !IsDigit(id[i])
      ensures GetCode(id) == None
    {
      var j :| 0 <= j < |id| && !IsDigit(id[j]);
      forall k: nat
        ensures NatToString(k) != id
      {
        assert |NatToString(k)| <= j || IsDigit(NatToString(k)[j]);
      }
      GetCodeSpec(id);
    }
  }

  /** The entries `KclVersion(id, vs[id])` for the ids in order. */
  function Entries(ids: seq<string>, vs: map<string, string>): (r: seq<KclVersion>)
    requires forall i :: 0 <= i < |ids| ==> ids[i] in vs
    ensures |r| == |ids| && forall i :: 0 <= i < |r| ==> r[i] == KclVersion(ids[i], vs[ids[i]])
    decreases |ids|
  {
    if |ids| == 0 then [] else [KclVersion(ids[0], vs[ids[0]])] + Entries(ids[1..], vs)
  }

  /** The store's test scenario: two saves get distinct ids and read back in order. */
  method TwoSaves() returns (store: InMemoryKclStorage, v1: string, v2: string)
    ensures fresh(store) && store.Valid()
    ensures v1 == "1" && v2 == "2" && v1 != v2
    ensures store.GetCode(v1) == Some("first();") && store.GetCode(v2) == Some("second();")
    ensures store.GetCode("does-not-exist") == None
    ensures store.ListVersions() == [KclVersion("1", "first();"), KclVersion("2", "second();")]
  {
    store := new InMemoryKclStorage();
    v1 := store.SaveCode("first();");
    v2 := store.SaveCode("second();");
    assert NatToString(1) == "1" && NatToString(2) == "2";
    assert !IsDigit("does-not-exist"[0]);
    store.UnknownIdNotFound("does-not-exist");
  }
}
