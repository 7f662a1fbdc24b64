/** Users, things and resources: records kept as opaque blobs in the world
    state, users and things enumerable through their indexes. The JSON form of
    a `User` or a `Thing` is outside the model: the decoder and encoder are
    parameters. */
module Records {
  import opened Base
  import opened Store
  import IndexManager

  /** A registered user. */
  datatype User = User(
    userId: string,
    salt: string,
    hash: string,
    firstName: string,
    lastName: string,
    things: seq<string>,
    address: string,
    phoneNumber: string,
    emailAddress: string)

  /** A thing owned by a user. */
  datatype Thing = Thing(id: string, description: string)

  /** The zero value a `Thing` keeps when unmarshalling fails before any field
      is set. */
  const NoThing := Thing("", "")

  /** `json.Unmarshal(b, &t)` into a fresh `Thing`, error ignored: empty input
      fails at once and leaves the zero value; anything else gives whatever
      the decoder fills in. */
  function UnmarshalThing(decode: Bytes -> Thing, b: Bytes): Thing {
    if b == "" then NoThing else decode(b)
  }

  /** `json.Unmarshal(b, &u)` into a fresh `User`, with its error: empty input
      is an error; otherwise the decoder decides. */
  function UnmarshalUser(decode: Bytes -> Option<User>, b: Bytes): Option<User> {
    if b == "" then None else decode(b)
  }

  /** The shared body of `add_user` and `add_thing`: append `args[0]` to the
      index under `indexKey` as it is (no ID is generated and no membership is
      checked), then store `args[1]` verbatim under that ID. `what` names the
      record kind in the error messages. */
  function AddIndexed(st: State, f: Faults, indexKey: string, what: string, args: seq<string>)
    : (r: (State, Result<Bytes>))
    requires |args| >= 2
    ensures r.1.Success? <==>
      indexKey !in f.readFails && indexKey !in f.writeFails && args[0] !in f.writeFails
    ensures r.1.Success? ==> r.1.value == "" && Lookup(r.0, args[0]) == args[1]
    ensures indexKey in f.readFails || indexKey in f.writeFails ==>
      r == (st, Failure(Failed("Error creating new id for " + what + " " + args[0])))
    ensures indexKey !in f.readFails && indexKey !in f.writeFails && args[0] in f.writeFails ==>
      && r.1 == Failure(Failed("Error putting " + what + " data on ledger"))
      && (args[0] != indexKey ==> Lookup(r.0, args[0]) == Lookup(st, args[0]))
    ensures indexKey !in f.readFails && indexKey !in f.writeFails && args[0] != indexKey ==>
      IndexManager.ReadIndex(r.0, indexKey) == IndexManager.ReadIndex(st, indexKey) + [args[0]]
    ensures forall k :: k != indexKey && k != args[0] ==> Lookup(r.0, k) == Lookup(st, k)
  {
    var (st1, res) := IndexManager.AppendId(st, f, indexKey, args[0], false);
    match res
    case Failure(_) => (st, Failure(Failed("Error creating new id for " + what + " " + args[0])))
    case Success(id) =>
      match PutState(st1, f, id, args[1])
      case Failure(_) => (st1, Failure(Failed("Error putting " + what + " data on ledger")))
      case Success(st2) => (st2, Success(""))
  }

  /** `add_user(args)`: on success the user blob `args[1]` is stored under
      exactly the ID just appended to `_users`; when the append fails no
      record is written at all. */
  function AddUser(st: State, f: Faults, args: seq<string>): (r: (State, Result<Bytes>))
    requires |args| >= 2
    ensures r.1.Success? ==> Lookup(r.0, args[0]) == args[1]
    ensures r.1.Success? && args[0] != IndexManager.UsersIndex ==>
      var index := IndexManager.ReadIndex(r.0, IndexManager.UsersIndex);
      |index| > 0 && index[|index| - 1] == args[0]
    ensures IndexManager.UsersIndex in f.readFails || IndexManager.UsersIndex in f.writeFails ==>
      r == (st, Failure(Failed("Error creating new id for user " + args[0])))
  {
    assert "Error creating new id for " + "user" + " " + args[0] == "Error creating new id for user " + args[0];
    AddIndexed(st, f, IndexManager.UsersIndex, "user", args)
  }

  /** `add_thing(args)`: the same as `add_user`, against `_things`. */
  function AddThing(st: State, f: Faults, args: seq<string>): (r: (State, Result<Bytes>))
    requires |args| >= 2
    ensures r.1.Success? ==> Lookup(r.0, args[0]) == args[1]
    ensures r.1.Success? && args[0] != IndexManager.ThingsIndex ==>
      var index := IndexManager.ReadIndex(r.0, IndexManager.ThingsIndex);
      |index| > 0 && index[|index| - 1] == args[0]
    ensures IndexManager.ThingsIndex in f.readFails || IndexManager.ThingsIndex in f.writeFails ==>
      r == (st, Failure(Failed("Error creating new id for thing " + args[0])))
  {
    assert "Error creating new id for " + "thing" + " " + args[0] == "Error creating new id for thing " + args[0];
    AddIndexed(st, f, IndexManager.ThingsIndex, "thing", args)
  }

  /** `get_user(userID)`: the stored blob, empty when there is none. */
  function GetUser(st: State, f: Faults, userId: string): (r: Result<Bytes>)
    ensures r.Failure? <==> userId in f.readFails
    ensures r.Failure? ==> r.error == Failed("Could not retrieve information for this user")
    ensures r.Success? ==> r.value == Lookup(st, userId)
  {
    match GetState(st, f, userId)
    case Failure(_) => Failure(Failed("Could not retrieve information for this user"))
    case Success(b) => Success(b)
  }

  /** `get_thing(args)`: the blob stored under `args[0]`. */
  function GetThing(st: State, f: Faults, args: seq<string>): (r: Result<Bytes>)
    requires |args| >= 1
    ensures r.Failure? <==> args[0] in f.readFails
    ensures r.Failure? ==> r.error == Failed("Error getting from ledger")
    ensures r.Success? ==> r.value == Lookup(st, args[0])
  {
    match GetState(st, f, args[0])
    case Failure(_) => Failure(Failed("Error getting from ledger"))
    case Success(b) => Success(b)
  }

  /** `get_all_things`: one thing per entry of `_things`, in index order, a
      repeated ID giving a repeated thing. The first member whose read fails
      aborts the whole listing with an error naming it. The final
      `json.Marshal` of the list is left to the caller. */
  method GetAllThings(st: State, f: Faults, decode: Bytes -> Thing) returns (r: Result<seq<Thing>>)
    ensures IndexManager.ThingsIndex in f.readFails ==>
      r == Failure(Failed("Failed to get " + IndexManager.ThingsIndex))
    ensures IndexManager.ThingsIndex !in f.readFails ==>
      var ids := IndexManager.ReadIndex(st, IndexManager.ThingsIndex);
      && (r.Success? <==> forall i :: 0 <= i < |ids| ==> ids[i] !in f.readFails)
      && (r.Success? ==>
            && |r.value| == |ids|
            && forall i :: 0 <= i < |ids| ==> r.value[i] == UnmarshalThing(decode, Lookup(st, ids[i])))
      && (r.Failure? ==>
            var j := IndexManager.FirstFailing(ids, f.readFails);
            j < |ids| && r.error == Failed("Unable to get thing with ID: " + ids[j]))
  {
    match GetState(st, f, IndexManager.ThingsIndex)
    case Failure(_) =>
      return Failure(Failed("Failed to get " + IndexManager.ThingsIndex));
    case Success(_) =>
    var ids := IndexManager.ReadIndex(st, IndexManager.ThingsIndex);
    var things: seq<Thing> := [];
    var n := 0;
    while n < |ids|
      invariant 0 <= n <= |ids|
      invariant forall i :: 0 <= i < n ==> ids[i] !in f.readFails
      invariant |things| == n
      invariant forall i :: 0 <= i < n ==> things[i] == UnmarshalThing(decode, Lookup(st, ids[i]))
    {
      match GetState(st, f, ids[n])
      case Failure(_) =>
        assert IndexManager.FirstFailing(ids, f.readFails) == n;
        return Failure(Failed("Unable to get thing with ID: " + ids[n]));
      case Success(b) =>
        things := things + [UnmarshalThing(decode, b)];
        n := n + 1;
    }
    return Success(things);
  }

  /** The reply when the user cannot be read. */
  const NotFoundReply: Bytes := "{ \"authenticated\": false }"

  /** The reply when the stored user does not unmarshal (note the missing
      space before the brace). */
  const UnreadableReply: Bytes := "{ \"authenticated\": false}"

  /** Everything of a granting reply before the re-encoded user. */
  const GrantedPrefix: Bytes := "{ \"authenticated\": true, \"user\": "

  /** A granting reply carrying the user's JSON. */
  function GrantedReply(user: Bytes): Bytes {
    GrantedPrefix + user + "  }"
  }

  predicate IsGranted(reply: Bytes) {
    |reply| >= |GrantedPrefix| && reply[..|GrantedPrefix|] == GrantedPrefix
  }

  /** `authenticate(args)`: a plain lookup of `args[0]`. It never fails: a
      failed read or a blob that does not unmarshal yields a refusal, and
      anything else grants, carrying the decoded user encoded again. The
      password in `args[1]` plays no part. */
  function Authenticate(st: State, f: Faults, args: seq<string>,
                        decode: Bytes -> Option<User>, encode: User -> Bytes): (r: Result<Bytes>)
    requires |args| >= 1
    ensures r.Success?
    ensures IsGranted(r.value) <==>
      args[0] !in f.readFails && UnmarshalUser(decode, Lookup(st, args[0])).Some?
    ensures IsGranted(r.value) ==>
      r.value == GrantedReply(encode(UnmarshalUser(decode, Lookup(st, args[0])).value))
    ensures args[0] in f.readFails ==> r.value == NotFoundReply
    ensures !IsGranted(r.value) && args[0] !in f.readFails ==> r.value == UnreadableReply
  {
    match GetUser(st, f, args[0])
    case Failure(_) => Success(NotFoundReply)
    case Success(blob) =>
      match UnmarshalUser(decode, blob)
      case None => Success(UnreadableReply)
      case Some(u) => Success(GrantedReply(encode(u)))
  }

  /** The answer depends on the user ID alone. */
  lemma PasswordIgnored(st: State, f: Faults, args: seq<string>, other: seq<string>,
                        decode: Bytes -> Option<User>, encode: User -> Bytes)
    requires |args| >= 1 && |other| >= 1 && args[0] == other[0]
    ensures Authenticate(st, f, args, decode, encode) == Authenticate(st, f, other, decode, encode)
  {
  }

  /** The key a resource is stored under: owner and hash run together. */
  function ResourceKey(owner: string, hash: string): string {
    owner + hash
  }

  /** `add_resource(args)`: stores the path `args[2]` under owner `args[0]`
      and hash `args[1]`. */
  function AddResource(st: State, f: Faults, args: seq<string>): (r: (State, Result<Bytes>))
    requires |args| >= 3
    ensures r.1.Success? <==> ResourceKey(args[0], args[1]) !in f.writeFails
    ensures r.1.Failure? ==> r == (st, Failure(Failed("Error putting resource data on ledger")))
    ensures r.1.Success? ==> r.1.value == "" && Lookup(r.0, ResourceKey(args[0], args[1])) == args[2]
    ensures forall k :: k != ResourceKey(args[0], args[1]) ==> Lookup(r.0, k) == Lookup(st, k)
  {
    match PutState(st, f, ResourceKey(args[0], args[1]), args[2])
    case Failure(_) => (st, Failure(Failed("Error putting resource data on ledger")))
    case Success(st') => (st', Success(""))
  }

  /** `get_resource(args)`: the path stored under owner `args[0]` and hash
      `args[1]`, empty when there is none. */
  function GetResource(st: State, f: Faults, args: seq<string>): (r: Result<Bytes>)
    requires |args| >= 2
    ensures r.Failure? <==> ResourceKey(args[0], args[1]) in f.readFails
    ensures r.Failure? ==> r.error == Failed("Error getting resource data from ledger")
    ensures r.Success? ==> r.value == Lookup(st, ResourceKey(args[0], args[1]))
  {
    match GetState(st, f, ResourceKey(args[0], args[1]))
    case Failure(_) => Failure(Failed("Error getting resource data from ledger"))
    case Success(b) => Success(b)
  }

  /** Reading back after a stored resource: a pair whose run-together key
      matches the stored one gets the stored path, any other pair what was
      there before. */
  lemma ResourceRoundTrip(st: State, f: Faults, owner: string, hash: string, path: string,
                          owner': string, hash': string)
    requires ResourceKey(owner, hash) !in f.writeFails
    requires ResourceKey(owner', hash') !in f.readFails
    ensures
      var st' := AddResource(st, f, [owner, hash, path]).0;
      GetResource(st', f, [owner', hash'])
        == Success(if owner + hash == owner' + hash' then path else Lookup(st, owner' + hash'))
  {
  }

  /** Plain concatenation lets different pairs address one resource: ("ab",
      "c") reads what ("a", "bc") stored. */
  lemma ResourceKeysCollide(st: State, path: string)
    ensures GetResource(AddResource(st, NoFaults, ["a", "bc", path]).0, NoFaults, ["ab", "c"]) == Success(path)
  {
    assert ResourceKey("a", "bc") == ResourceKey("ab", "c");
  }
}
