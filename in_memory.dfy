/** The in-memory repository: a table from short code to record, filled by
    insert-if-absent and read by lookup. The read-write lock that guards it
    in the source is not modelled; every operation runs to completion before
    the next begins. */
module InMemory {
  import opened Wrappers
  import opened ShortCodes
  import opened ShortenedUrls
  import opened Ports

  /** The table, keyed by the string of each short code. */
  type Store = map<string, ShortenedUrl>

  /** A new table together with what an operation returned. */
  datatype Step<+T> = Step(store: Store, result: T)

  /** The table's invariant: every key is the code of the record under it. */
  predicate KeysMatch(store: Store)
  {
    forall k :: k in store ==> store[k].shortCode.value == k
  }

  /** `get`: the record stored under `code`, if any. */
  function Lookup(store: Store, code: ShortCode): (r: Option<ShortenedUrl>)
    ensures r.Some? <==> code.value in store
    ensures r.Some? ==> r.value == store[code.value]
    ensures r.Some? && KeysMatch(store) ==> r.value.shortCode == code
  {
    if code.value in store then Some(store[code.value]) else None
  }

  /** `add`: inserts `r` under its code when the code is absent, and otherwise
      reports `AlreadyExists` and leaves the table as it was. Entries under
      other codes are never touched, and the invariant is kept. */
  function Insert(store: Store, r: ShortenedUrl): (s: Step<Outcome<CreateUrlError>>)
    ensures s.result == Pass <==> r.shortCode.value !in store
    ensures s.result != Pass ==> s.result == Fail(AlreadyExists) && s.store == store
    ensures s.result == Pass ==> s.store.Keys == store.Keys + {r.shortCode.value}
    ensures Lookup(s.store, r.shortCode) == Some(if s.result == Pass then r else store[r.shortCode.value])
    ensures forall k :: k in store ==> k in s.store && s.store[k] == store[k]
    ensures KeysMatch(store) ==> KeysMatch(s.store)
  {
    if r.shortCode.value in store then Step(store, Fail(AlreadyExists))
    else Step(store[r.shortCode.value := r], Pass)
  }

  /** `create`: `add`, returning the inserted record on success and `add`'s
      error unchanged otherwise. */
  function CreateRecord(store: Store, r: ShortenedUrl): (s: Step<Result<ShortenedUrl, CreateUrlError>>)
    ensures s.store == Insert(store, r).store
    ensures s.result.Success? <==> Insert(store, r).result == Pass
    ensures s.result.Success? ==> s.result.value == r
    ensures s.result.Failure? ==> Fail(s.result.error) == Insert(store, r).result
  {
    var a := Insert(store, r);
    match a.result
    case Pass => Step(a.store, Success(r))
    case Fail(e) => Step(a.store, Failure(e))
  }

  /** `get_by_code`: the stored record, or `NotFound` on a miss. */
  function FindByCode(store: Store, code: ShortCode): (r: Result<ShortenedUrl, GetByCodeError>)
    ensures r.Success? <==> Lookup(store, code).Some?
    ensures r.Success? ==> r.value == Lookup(store, code).value
    ensures r.Failure? ==> r.error == NotFound
  {
    match Lookup(store, code)
    case Some(v) => Success(v)
    case None => Failure(NotFound)
  }

  /** A fresh table answers every lookup with `NotFound`. */
  lemma EmptyStoreNotFound(code: ShortCode)
    ensures FindByCode(map[], code) == Failure(NotFound)
  {
  }

  /** After a successful `create(r)`, `get_by_code(r.short_code)` returns `r`. */
  lemma CreateThenFind(store: Store, r: ShortenedUrl)
    requires CreateRecord(store, r).result.Success?
    ensures FindByCode(CreateRecord(store, r).store, r.shortCode) == Success(r)
  {
  }

  /** A rejected duplicate leaves the first record in place. */
  lemma DuplicateKeepsFirst(store: Store, first: ShortenedUrl, second: ShortenedUrl)
    requires first.shortCode == second.shortCode
    requires CreateRecord(store, first).result.Success?
    ensures var s := CreateRecord(CreateRecord(store, first).store, second);
      s.result == Failure(AlreadyExists) && FindByCode(s.store, first.shortCode) == Success(first)
  {
  }

  /** A sequence of `create` calls, one after another, each on the table the
      previous one left; the results in call order. */
  function CreateAll(store: Store, rs: seq<ShortenedUrl>): (s: Step<seq<Result<ShortenedUrl, CreateUrlError>>>)
    ensures |s.result| == |rs|
    ensures forall k :: k in store ==> k in s.store && s.store[k] == store[k]
    ensures KeysMatch(store) ==> KeysMatch(s.store)
    decreases |rs|
  {
    if rs == [] then Step(store, [])
    else
      var first := CreateRecord(store, rs[0]);
      var rest := CreateAll(first.store, rs[1..]);
      Step(rest.store, [first.result] + rest.result)
  }

  /** The codes of a run of records. */
  function Codes(rs: seq<ShortenedUrl>): set<string>
  {
    set r | r in rs :: r.shortCode.value
  }

  lemma CodesCons(r: ShortenedUrl, rs: seq<ShortenedUrl>)
    ensures Codes([r] + rs) == {r.shortCode.value} + Codes(rs)
  {
    assert forall x :: x in [r] + rs <==> x == r || x in rs;
  }

  /** The result the `i`-th call of a run gets. */
  function Expected(store: Store, rs: seq<ShortenedUrl>, i: nat): Result<ShortenedUrl, CreateUrlError>
    requires i < |rs|
  {
    if rs[i].shortCode.value in store.Keys + Codes(rs[..i]) then Failure(AlreadyExists) else Success(rs[i])
  }

  /** After the first call, the rest of the run sees the same verdicts: a
      code clashes with the new table and the later prefix exactly when it
      clashes with the old table and the whole prefix. */
  lemma ExpectedShift(store: Store, rs: seq<ShortenedUrl>, i: nat)
    requires 1 <= i < |rs|
    ensures Expected(store, rs, i) == Expected(CreateRecord(store, rs[0]).store, rs[1..], i - 1)
  {
    var c0 := rs[0].shortCode.value;
    assert CreateRecord(store, rs[0]).store.Keys == store.Keys + {c0};
    assert rs[1..][i - 1] == rs[i];
    assert rs[..i] == [rs[0]] + rs[1..][..i - 1];
    CodesCons(rs[0], rs[1..][..i - 1]);
  }

  /** What a run of creates does in general: call `i` succeeds with its own
      record exactly when its code is neither in the starting table nor used
      by an earlier call, and fails with `AlreadyExists` otherwise. */
  lemma {:induction false} CreateAllOutcomes(store: Store, rs: seq<ShortenedUrl>)
    ensures forall i :: 0 <= i < |rs| ==> CreateAll(store, rs).result[i] == Expected(store, rs, i)
    decreases |rs|
  {
    if rs != [] {
      var first := CreateRecord(store, rs[0]);
      var rest := CreateAll(first.store, rs[1..]);
      var s := CreateAll(store, rs);
      CreateAllOutcomes(first.store, rs[1..]);
      forall i | 0 <= i < |rs|
        ensures s.result[i] == Expected(store, rs, i)
      {
        if i == 0 {
          assert rs[..0] == [];
          assert Codes(rs[..0]) == {};
        } else {
          assert s.result[i] == rest.result[i - 1];
          ExpectedShift(store, rs, i);
        }
      }
    }
  }

  /** A run of creates adds the codes of the run to the keys, and nothing else. */
  lemma {:induction false} CreateAllKeys(store: Store, rs: seq<ShortenedUrl>)
    ensures CreateAll(store, rs).store.Keys == store.Keys + Codes(rs)
    decreases |rs|
  {
    if rs == [] {
      assert Codes(rs) == {};
    } else {
      var first := CreateRecord(store, rs[0]);
      assert first.store.Keys == store.Keys + {rs[0].shortCode.value};
      CreateAllKeys(first.store, rs[1..]);
      assert rs == [rs[0]] + rs[1..];
      CodesCons(rs[0], rs[1..]);
    }
  }

  /** Creates of one code, all on a table without it: exactly the first
      succeeds, every later one is `AlreadyExists`, and the first record is
      the one stored. */
  lemma {:induction false} SameCodeOneWinner(store: Store, rs: seq<ShortenedUrl>)
    requires |rs| > 0 && rs[0].shortCode.value !in store
    requires forall i :: 0 <= i < |rs| ==> rs[i].shortCode == rs[0].shortCode
    ensures var s := CreateAll(store, rs);
      && s.result[0] == Success(rs[0])
      && (forall i :: 1 <= i < |rs| ==> s.result[i] == Failure(AlreadyExists))
      && FindByCode(s.store, rs[0].shortCode) == Success(rs[0])
  {
    var first := CreateRecord(store, rs[0]);
    AllRejected(first.store, rs[1..], rs[0]);
  }

  /** Every create of a code that is already present fails and changes nothing. */
  lemma {:induction false} AllRejected(store: Store, rs: seq<ShortenedUrl>, holder: ShortenedUrl)
    requires Lookup(store, holder.shortCode) == Some(holder)
    requires forall i :: 0 <= i < |rs| ==> rs[i].shortCode == holder.shortCode
    ensures var s := CreateAll(store, rs);
      && s.store == store
      && forall i :: 0 <= i < |rs| ==> s.result[i] == Failure(AlreadyExists)
    decreases |rs|
  {
    if rs != [] {
      AllRejected(store, rs[1..], holder);
    }
  }

  /** Creates of pairwise distinct codes, none present beforehand: all
      succeed and each record is then found under its own code. */
  lemma {:induction false} DistinctCodesAllStored(store: Store, rs: seq<ShortenedUrl>)
    requires forall i :: 0 <= i < |rs| ==> rs[i].shortCode.value !in store
    requires forall i, j :: 0 <= i < j < |rs| ==> rs[i].shortCode != rs[j].shortCode
    ensures var s := CreateAll(store, rs);
      && (forall i :: 0 <= i < |rs| ==> s.result[i] == Success(rs[i]))
      && (forall i :: 0 <= i < |rs| ==> FindByCode(s.store, rs[i].shortCode) == Success(rs[i]))
    decreases |rs|
  {
    if rs != [] {
      var first := CreateRecord(store, rs[0]);
      forall i | 0 <= i < |rs[1..]| ensures rs[1..][i].shortCode.value !in first.store {
        assert rs[1..][i] == rs[i + 1];
      }
      DistinctCodesAllStored(first.store, rs[1..]);
    }
  }

  /** The in-memory repository object. */
  class InMemoryStorage {
    var store: Store

    ghost predicate Valid()
      reads this
    {
      KeysMatch(store)
    }

    /** `InMemoryStorage::new`: an empty table. */
    constructor ()
      ensures Valid() && store == map[]
    {
      store := map[];
    }

    /** `add`: checks for the code, then inserts. */
    method Add(r: ShortenedUrl) returns (res: Outcome<CreateUrlError>)
      requires Valid()
      modifies this
      ensures Valid()
      ensures Step(store, res) == Insert(old(store), r)
    {
      if r.shortCode.value in store {
        return Fail(AlreadyExists);
      }
      store := store[r.shortCode.value := r];
      res := Pass;
    }

    /** `get`: reads the table and changes nothing. */
    method Get(code: ShortCode) returns (r: Option<ShortenedUrl>)
      requires Valid()
      ensures r == Lookup(store, code)
      ensures r.Some? ==> r.value.shortCode == code
    {
      if code.value in store {
        r := Some(store[code.value]);
      } else {
        r := None;
      }
    }

    /** `create`: delegates to `add` and returns the inserted record. */
    method Create(r: ShortenedUrl) returns (res: Result<ShortenedUrl, CreateUrlError>)
      requires Valid()
      modifies this
      ensures Valid()
      ensures Step(store, res) == CreateRecord(old(store), r)
    {
      var outcome := Add(r);
      match outcome
      case Pass => res := Success(r);
      case Fail(e) => res := Failure(e);
    }

    /** `get_by_code`: delegates to `get`, turning a miss into `NotFound`. */
    method GetByCode(code: ShortCode) returns (res: Result<ShortenedUrl, GetByCodeError>)
      requires Valid()
      ensures res == FindByCode(store, code)
    {
      var found := Get(code);
      match found
      case Some(v) => res := Success(v);
      case None => res := Failure(NotFound);
    }
  }
}
