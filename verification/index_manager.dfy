/** The ID indexes: ordered lists of IDs kept in the world state under the
    fixed keys `_users`, `_things` and `_applications`, extended one ID at a
    time and wiped together. */
module IndexManager {
  import opened Base
  import opened Store
  import Decimal
  import Json

  const UsersIndex := "_users"
  const ThingsIndex := "_things"
  const ApplicationsIndex := "_applications"

  /** The index keys in the order `reset_indexes` visits them. */
  const Indexes: seq<string> := [UsersIndex, ThingsIndex, ApplicationsIndex]

  /** What a cleared index holds: the JSON of a nil `[]string`. */
  const EmptyIndex: Bytes := Json.EncodeStrings([])

  /** The IDs under an index key. A missing blob, or one that does not
      unmarshal, leaves Go's slice nil, so it reads as the empty index. */
  function ReadIndex(st: State, key: string): seq<string> {
    match Json.DecodeStrings(Lookup(st, key))
    case None => []
    case Some(ids) => ids
  }

  /** `append_id(stub, key, id, create)`: reads the index under `key`, derives
      the new ID (with `create`, `id` followed by the 1-based position the ID
      will take), appends it and writes the index back. The returned value is
      the new ID. A read error stops the call before anything is written. */
  function AppendId(st: State, f: Faults, key: string, id: string, create: bool): (r: (State, Result<string>))
    ensures key in f.readFails ==> r == (st, Failure(Failed("Failed to get " + key)))
    ensures key !in f.readFails && key in f.writeFails ==>
      r == (st, Failure(Failed("Error storing new " + key + " into ledger")))
    ensures r.1.Success? <==> key !in f.readFails && key !in f.writeFails
    ensures r.1.Success? ==>
      var before := ReadIndex(st, key);
      && r.1.value == (if create then id + Decimal.Itoa(|before| + 1) else id)
      && ReadIndex(r.0, key) == before + [r.1.value]
    ensures forall k :: k != key ==> Lookup(r.0, k) == Lookup(st, k)
  {
    match GetState(st, f, key)
    case Failure(_) => (st, Failure(Failed("Failed to get " + key)))
    case Success(blob) =>
      var index := ReadIndex(st, key);
      var newId := if create then id + Decimal.Itoa(|index| + 1) else id;
      match PutState(st, f, key, Json.EncodeStrings(index + [newId]))
      case Failure(_) => (st, Failure(Failed("Error storing new " + key + " into ledger")))
      case Success(st') =>
        Json.StringsRoundTrip(index + [newId]);
        (st', Success(newId))
  }

  /** With `create`, the new ID ends in the numeral of its own 1-based
      position in the extended index, and that numeral reads back as the
      position. */
  lemma SuffixIsPosition(st: State, f: Faults, key: string, id: string)
    requires AppendId(st, f, key, id, true).1.Success?
    ensures
      var (st', res) := AppendId(st, f, key, id, true);
      var index := ReadIndex(st', key);
      && index[|index| - 1] == res.value
      && res.value == id + Decimal.Itoa(|index|)
      && Decimal.Atoi(res.value[|id|..]) == |index|
  {
    var (st', res) := AppendId(st, f, key, id, true);
    var index := ReadIndex(st', key);
    assert res.value[|id|..] == Decimal.Itoa(|index|);
    Decimal.AtoiItoa(|index|);
  }

  /** An absent or unreadable index counts as empty, so the first generated
      ID ends in "1". */
  lemma FirstSuffixIsOne(st: State, f: Faults, key: string, id: string)
    requires Json.DecodeStrings(Lookup(st, key)) in {None, Some([])}
    requires key !in f.readFails && key !in f.writeFails
    ensures AppendId(st, f, key, id, true).1 == Success(id + "1")
    ensures ReadIndex(AppendId(st, f, key, id, true).0, key) == [id + "1"]
  {
  }

  /** Without `create` nothing checks membership: appending an ID already in
      the index lists it twice. */
  lemma AppendDuplicates(st: State, f: Faults, key: string, id: string)
    requires id in ReadIndex(st, key)
    requires key !in f.readFails && key !in f.writeFails
    ensures
      var index := ReadIndex(AppendId(st, f, key, id, false).0, key);
      exists i, j :: 0 <= i < j < |index| && index[i] == id && index[j] == id
  {
    var before := ReadIndex(st, key);
    var index := ReadIndex(AppendId(st, f, key, id, false).0, key);
    var i :| 0 <= i < |before| && before[i] == id;
    assert index[i] == id && index[|before|] == id;
  }

  /** The shape of an index built only by generating IDs from one prefix:
      entry i is the prefix followed by the numeral of i + 1. */
  predicate Numbered(index: seq<string>, prefix: string) {
    forall i :: 0 <= i < |index| ==> index[i] == prefix + Decimal.Itoa(i + 1)
  }

  /** Generating an ID from the prefix keeps such an index numbered. */
  lemma AppendKeepsNumbered(st: State, f: Faults, key: string, prefix: string)
    requires Numbered(ReadIndex(st, key), prefix)
    requires key !in f.readFails && key !in f.writeFails
    ensures Numbered(ReadIndex(AppendId(st, f, key, prefix, true).0, key), prefix)
  {
  }

  /** A numbered index lists no ID twice: generated IDs of one prefix are
      unique as long as nothing else writes that index. */
  lemma NumberedIsDistinct(index: seq<string>, prefix: string)
    requires Numbered(index, prefix)
    ensures forall i, j :: 0 <= i < j < |index| ==> index[i] != index[j]
  {
    forall i, j | 0 <= i < j < |index|
      ensures index[i] != index[j]
    {
      Decimal.SuffixedInjective(prefix, i + 1, j + 1);
    }
  }

  /** The position of the first key whose write fails, or the number of keys
      when none does. */
  function FirstFailing(keys: seq<string>, fails: set<string>): (j: nat)
    ensures j <= |keys|
    ensures forall i :: 0 <= i < j ==> keys[i] !in fails
    ensures j < |keys| ==> keys[j] in fails
  {
    if |keys| == 0 || keys[0] in fails then 0 else 1 + FirstFailing(keys[1..], fails)
  }

  /** Clears each key in turn, stopping at the first failed write. The keys
      before that point are cleared; every other key is left as it was. */
  function ResetKeys(st: State, f: Faults, keys: seq<string>): (r: (State, Result<Bytes>))
    ensures
      var j := FirstFailing(keys, f.writeFails);
      && (r.1.Success? <==> j == |keys|)
      && (r.1.Success? ==> r.1.value == "")
      && (r.1.Failure? ==> r.1.error == Failed("Error deleting index"))
      && (forall k :: k in keys[..j] ==> Lookup(r.0, k) == EmptyIndex)
      && (forall k :: k !in keys[..j] ==> Lookup(r.0, k) == Lookup(st, k))
    decreases |keys|
  {
    if |keys| == 0 then (st, Success(""))
    else
      match PutState(st, f, keys[0], EmptyIndex)
      case Failure(_) => (st, Failure(Failed("Error deleting index")))
      case Success(st') =>
        var r := ResetKeys(st', f, keys[1..]);
        assert keys[..FirstFailing(keys, f.writeFails)]
            == [keys[0]] + keys[1..][..FirstFailing(keys[1..], f.writeFails)];
        r
  }

  /** `reset_indexes`: writes an empty index under `_users`, `_things` and
      `_applications`, in that order, and touches no other key. The first
      failed write ends the call with an error, leaving the indexes after it
      as they were. */
  function ResetIndexes(st: State, f: Faults): (r: (State, Result<Bytes>))
    ensures r.1.Success? <==> forall k :: k in Indexes ==> k !in f.writeFails
    ensures r.1.Success? ==> forall k :: k in Indexes ==> ReadIndex(r.0, k) == []
    ensures r.1.Failure? ==> r.1.error == Failed("Error deleting index")
    ensures UsersIndex in f.writeFails ==> r.0 == st
    ensures forall k :: k !in Indexes ==> Lookup(r.0, k) == Lookup(st, k)
  {
    Json.StringsRoundTrip([]);
    ResetKeys(st, f, Indexes)
  }
}
