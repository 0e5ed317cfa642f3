/** The name-keyed learner store (`UserManager` in src/data/user_manager.py) as a pure state
    transformer. Persistence is reduced to the dictionary form of the whole store. */
module UserStore {
  import opened Wrappers
  import opened Users
  import opened Sequences

  type Store = map<string, User>

  /** Every learner is filed under its own name. */
  ghost predicate Consistent(s: Store) {
    forall name :: name in s ==> s[name].name == name
  }

  /** The error `create_user` raises (a ValueError in the program). */
  datatype StoreError = DuplicateName(name: string)

  /** `create_user`: refuses a name already in use and leaves the store as it was; otherwise files
      a new learner under the name and touches no other entry. */
  function CreateUser(s: Store, name: string, age: int, now: string): (out: (Store, Result<User, StoreError>))
    ensures name in s ==> out.0 == s && out.1 == Failure(DuplicateName(name))
    ensures name !in s ==>
      && out.1.Success?
      && var u := out.1.value;
      && u.name == name && u.age == age && IsFresh(u) && u.createdDate == now && u.lastLogin == now
      && out.0.Keys == s.Keys + {name} && out.0[name] == u
      && (forall other :: other in s ==> out.0[other] == s[other])
    ensures Consistent(s) ==> Consistent(out.0)
  {
    if name in s then (s, Failure(DuplicateName(name)))
    else
      var u := NewUser(name, age, now);
      (s[name := u], Success(u))
  }

  /** `get_user`. */
  function GetUser(s: Store, name: string): (r: Option<User>)
    ensures r.Some? <==> name in s
    ensures r.Some? ==> r.value == s[name]
  {
    if name in s then Some(s[name]) else None
  }

  /** `delete_user`: reports whether the name was present; afterwards it is absent and every other
      learner is untouched. */
  function DeleteUser(s: Store, name: string): (out: (Store, bool))
    ensures out.1 <==> name in s
    ensures out.0.Keys == s.Keys - {name}
    ensures forall other :: other in out.0 ==> out.0[other] == s[other]
    ensures Consistent(s) ==> Consistent(out.0)
  {
    if name in s then (s - {name}, true) else (s, false)
  }

  /** Creating "Anna" twice keeps the first record: the second attempt fails and changes nothing. */
  lemma DuplicateCreateKeepsFirst(s: Store, now: string, later: string)
    requires "Anna" !in s
    ensures var (s1, r1) := CreateUser(s, "Anna", 9, now);
      && r1.Success?
      && var (s2, r2) := CreateUser(s1, "Anna", 11, later);
      && r2 == Failure(DuplicateName("Anna")) && s2 == s1 && s2["Anna"].age == 9
  {
  }

  /** Deleting what was just created restores the store. */
  lemma DeleteUndoesCreate(s: Store, name: string, age: int, now: string)
    requires name !in s
    ensures DeleteUser(CreateUser(s, name, age, now).0, name) == (s, true)
  {
    assert CreateUser(s, name, age, now).0 - {name} == s;
  }

  // ---------------------------------------------------------------------------------------------
  // Dictionary form of the whole store

  /** `save_all_users` without the file: one dictionary per learner, each learner once, listed in the
      order `names` gives (`names` enumerates the store's keys). */
  function SaveUsers(s: Store, names: seq<string>): (records: seq<UserRecord>)
    requires forall n :: n in s <==> n in names
    requires NoDuplicates(names)
    ensures |records| == |names|
    ensures forall i, now :: 0 <= i < |names| ==> FromRecord(records[i], now) == Some(s[names[i]])
  {
    seq(|names|, i requires 0 <= i < |names| => ToRecord(s[names[i]]))
  }

  /** `load_users` without the file: each dictionary read in turn and filed under the name it holds.
      A dictionary missing name or age raises, which ends the loop and keeps what was loaded. */
  function LoadUsers(s: Store, records: seq<UserRecord>, now: string): (r: Store)
    ensures s.Keys <= r.Keys
    ensures Consistent(s) ==> Consistent(r)
    ensures (forall d :: d in records ==> Readable(d)) ==>
      r.Keys == s.Keys + set d | d in records :: d.name.value
    ensures |records| > 0 && !Readable(records[0]) ==> r == s
    decreases |records|
  {
    if |records| == 0 then s
    else match FromRecord(records[0], now)
      case None => s
      case Some(u) =>
        var r := LoadUsers(s[u.name := u], records[1..], now);
        assert forall d :: d in records ==> d == records[0] || d in records[1..];
        r
  }

  /** The record holds the two keys `from_dict` reads without a default. */
  predicate Readable(d: UserRecord) {
    d.name.Some? && d.age.Some?
  }

  /** `k` is the first record without name or age. */
  ghost predicate StopsAt(records: seq<UserRecord>, k: int) {
    && 0 <= k < |records| && !Readable(records[k])
    && forall j :: 0 <= j < k ==> Readable(records[j])
  }

  /** The first record missing name or age ends the load: the result is what loading the records
      before it gives, so exactly their names are added and nothing from that record on is read. */
  lemma {:induction false} LoadStopsAtFirstMissing(s: Store, records: seq<UserRecord>, now: string, k: int)
    requires StopsAt(records, k)
    ensures LoadUsers(s, records, now) == LoadUsers(s, records[..k], now)
    ensures LoadUsers(s, records, now).Keys == s.Keys + set j | 0 <= j < k :: records[j].name.value
    decreases k
  {
    var prefix := records[..k];
    assert forall d :: d in prefix ==> Readable(d);
    assert (set d | d in prefix :: d.name.value) == set j | 0 <= j < k :: records[j].name.value by {
      forall j | 0 <= j < k ensures records[j] in prefix {
        assert prefix[j] == records[j];
      }
    }
    if k > 0 {
      var u := FromRecord(records[0], now).value;
      assert prefix[0] == records[0];
      assert prefix[1..] == records[1..][..k - 1];
      LoadStopsAtFirstMissing(s[u.name := u], records[1..], now, k - 1);
    }
  }

  /** Reading one more complete record files exactly the user that record reads as under its name,
      over whatever the earlier records left there. */
  lemma {:induction false} LoadAppend(s: Store, records: seq<UserRecord>, d: UserRecord, now: string)
    requires forall e :: e in records ==> Readable(e)
    requires Readable(d)
    ensures FromRecord(d, now).Some?
    ensures var u := FromRecord(d, now).value;
      LoadUsers(s, records + [d], now) == LoadUsers(s, records, now)[u.name := u]
    decreases |records|
  {
    if |records| == 0 {
      assert records + [d] == [d];
      assert [d][1..] == [];
    } else {
      assert records[0] in records;
      var u := FromRecord(records[0], now).value;
      assert (records + [d])[0] == records[0];
      assert (records + [d])[1..] == records[1..] + [d];
      LoadAppend(s[u.name := u], records[1..], d, now);
    }
  }

  /** Saving a consistent store in any order of its names and loading the result into an empty
      store gives back the same store. */
  lemma LoadSavedUsers(s: Store, names: seq<string>, now: string)
    requires Consistent(s)
    requires forall n :: n in s <==> n in names
    requires NoDuplicates(names)
    ensures LoadUsers(map[], SaveUsers(s, names), now) == s
  {
    assert names[..0] == [];
    assert Part(s, names[..0]) == map[];
    LoadSavedFrom(s, names, 0, now);
    assert SaveUsers(s, names)[0..] == SaveUsers(s, names);
  }

  /** Having loaded the first `k` saved learners, loading the rest completes the store. */
  lemma {:induction false} LoadSavedFrom(s: Store, names: seq<string>, k: nat, now: string)
    requires Consistent(s)
    requires forall n :: n in s <==> n in names
    requires NoDuplicates(names)
    requires k <= |names|
    ensures LoadUsers(Part(s, names[..k]), SaveUsers(s, names)[k..], now) == s
    decreases |names| - k
  {
    var records := SaveUsers(s, names);
    if k == |names| {
      assert names[..k] == names;
      assert Part(s, names) == s;
    } else {
      var u := s[names[k]];
      assert records[k..][0] == records[k];
      assert records[k..][1..] == records[k + 1..];
      PartExtend(s, names, k);
      LoadSavedFrom(s, names, k + 1, now);
    }
  }

  lemma PartExtend(s: Store, names: seq<string>, k: nat)
    requires Consistent(s)
    requires forall n :: n in names ==> n in s
    requires k < |names|
    ensures Part(s, names[..k])[s[names[k]].name := s[names[k]]] == Part(s, names[..k + 1])
  {
    assert names[..k + 1] == names[..k] + [names[k]];
  }

  /** The part of `s` filed under the given names. */
  ghost function Part(s: Store, names: seq<string>): Store
    requires forall n :: n in names ==> n in s
  {
    map n | n in names :: s[n]
  }
}
