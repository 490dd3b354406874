/**
 * The accounts a sink knows (derive_accounts in src/subxt_transaction.rs), chosen in `build`
 * (src/scenario.rs), against the account names the batch builder looks up.
 */
module DerivedAccounts {
  import opened Wrappers
  import opened Transactions
  import opened Decimals
  import opened Chunks
  import opened Scenario

  datatype AccountsDescription = Keyring(name: string) | Numbered(first: nat, end: nat)

  datatype DevAccount = Alice | Bob | Charlie | Dave | Eve | Ferdie

  /** Key generation is foreign code: a key pair is known by what it was generated from. */
  datatype KeyPair = KeyringPair(dev: DevAccount) | DerivedPair(seed: string, index: nat)

  /** The names the key generators accept, two for each development account. */
  function DevAccountOf(name: string): Option<DevAccount> {
    if name == "alice" || name == "alith" then Some(Alice)
    else if name == "bob" || name == "baltathar" then Some(Bob)
    else if name == "charlie" || name == "charleth" then Some(Charlie)
    else if name == "dave" || name == "dorothy" then Some(Dave)
    else if name == "eve" || name == "ethan" then Some(Eve)
    else if name == "ferdie" || name == "faith" then Some(Ferdie)
    else None
  }

  predicate IsKeyringName(name: string) {
    DevAccountOf(name).Some?
  }

  /** Reading the development accounts back: each has exactly its two names. */
  lemma {:induction false} DevAccountNames(name: string)
    ensures DevAccountOf(name) == Some(Alice) <==> name in ["alice", "alith"]
    ensures DevAccountOf(name) == Some(Bob) <==> name in ["bob", "baltathar"]
    ensures DevAccountOf(name) == Some(Charlie) <==> name in ["charlie", "charleth"]
    ensures DevAccountOf(name) == Some(Dave) <==> name in ["dave", "dorothy"]
    ensures DevAccountOf(name) == Some(Eve) <==> name in ["eve", "ethan"]
    ensures DevAccountOf(name) == Some(Ferdie) <==> name in ["ferdie", "faith"]
  {
    assert "alice"[0] == 'a' && "alith"[3] == 't' && "bob"[0] == 'b' && "baltathar"[1] == 'a';
  }

  type AccountMap = map<string, (KeyPair, AccountMetadata)>

  /** `last_id + 1` on 32 bits, wrapping like the release build. */
  function WrappingSucc(n: nat): nat {
    (n + 1) % (U32_MAX + 1)
  }

  /** The accounts `build` asks the sink to derive; `None` when no account is configured. */
  function Describe(s: Settings): Option<AccountsDescription> {
    if s.startId.Some? then Some(Numbered(s.startId.value, WrappingSucc(LastId(s))))
    else if s.accountId.None? then None
    else
      match Parse(s.accountId.value)
      case Some(id) => Some(Numbered(id, WrappingSucc(id)))
      case None => Some(Keyring(s.accountId.value))
  }

  function NumberedPairs(seed: string, first: nat, count: nat): (ps: seq<(string, (KeyPair, AccountMetadata))>)
    ensures |ps| == count
    ensures forall k :: 0 <= k < count ==>
      ps[k] == (Decimal(first + k), (DerivedPair(seed, first + k), Derived(first + k)))
  {
    seq(count, k requires 0 <= k < count => (Decimal(first + k), (DerivedPair(seed, first + k), Derived(first + k))))
  }

  /** One derivation thread: the pairs of its chunk. */
  method DeriveChunk(seed: string, first: nat, n: nat, k: nat, t: nat)
    returns (pairs: seq<(string, (KeyPair, AccountMetadata))>)
    requires k < t
    ensures pairs == Chunk(NumberedPairs(seed, first, n), k, t)
  {
    ghost var all := NumberedPairs(seed, first, n);
    BoundMonotone(k, k + 1, n, t);
    BoundMonotone(k + 1, t, n, t);
    BoundEnds(n, t);
    var lo, hi := first + Bound(k, n, t), first + Bound(k + 1, n, t);
    pairs := [];
    var i := lo;
    while i < hi
      invariant lo <= i <= hi
      invariant pairs == all[lo - first..i - first]
    {
      pairs := pairs + [(Decimal(i), (DerivedPair(seed, i), Derived(i)))];
      i := i + 1;
    }
  }

  /** The map built from the pairs in order, a later pair replacing an earlier one of the same key. */
  function Collect(pairs: seq<(string, (KeyPair, AccountMetadata))>): AccountMap {
    if pairs == [] then map[]
    else Collect(pairs[..|pairs| - 1])[pairs[|pairs| - 1].0 := pairs[|pairs| - 1].1]
  }

  /** `None` is a panic: an unknown keyring name, or a range that ends before it begins. */
  function DerivedMap(d: AccountsDescription, seed: string): Option<AccountMap> {
    match d
    case Keyring(name) =>
      match DevAccountOf(name) {
        case Some(dev) => Some(map[name := (KeyringPair(dev), KeyRing(name))])
        case None => None
      }
    case Numbered(first, end) =>
      if end < first then None else Some(Collect(NumberedPairs(seed, first, end - first)))
  }

  /** The derivation threads of a range, joined in order. */
  method DeriveRange(seed: string, first: nat, n: nat, parallelism: nat)
    returns (pairs: seq<(string, (KeyPair, AccountMetadata))>)
    requires parallelism >= 1
    ensures pairs == NumberedPairs(seed, first, n)
  {
    ghost var all := NumberedPairs(seed, first, n);
    var t := Min(n, parallelism);
    pairs := [];
    var k := 0;
    while k < t
      invariant 0 <= k <= t
      invariant pairs == Flattened(all, k, t)
    {
      var chunk := DeriveChunk(seed, first, n, k, t);
      pairs := pairs + chunk;
      k := k + 1;
    }
    ChunksTile(all, parallelism);
  }

  method DeriveAccounts(d: AccountsDescription, seed: string, parallelism: nat) returns (accounts: Option<AccountMap>)
    requires parallelism >= 1
    ensures accounts == DerivedMap(d, seed)
    ensures d.Numbered? && accounts.Some? ==> HasExactly(accounts.value, seed, d.first, d.end)
  {
    DerivedEntries(d, seed);
    match d {
      case Keyring(name) =>
        var dev := DevAccountOf(name);
        return if dev.Some? then Some(map[name := (KeyringPair(dev.value), KeyRing(name))]) else None;
      case Numbered(first, end) =>
        if end < first {
          return None;
        }
        var pairs := DeriveRange(seed, first, end - first, parallelism);
        accounts := Some(Collect(pairs));
    }
  }

  /** The printed numbers of a range. */
  function Names(first: nat, count: nat): set<string> {
    if count == 0 then {} else Names(first, count - 1) + {Decimal(first + count - 1)}
  }

  lemma {:induction false} NamesMember(first: nat, count: nat, j: nat)
    ensures Decimal(j) in Names(first, count) <==> first <= j < first + count
  {
    if count > 0 {
      NamesMember(first, count - 1, j);
      if Decimal(j) == Decimal(first + count - 1) {
        DecimalInjective(j, first + count - 1);
      }
    }
  }

  lemma {:induction false} NamesSize(first: nat, count: nat)
    ensures |Names(first, count)| == count
  {
    if count > 0 {
      NamesSize(first, count - 1);
      NamesMember(first, count - 1, first + count - 1);
    }
  }

  lemma {:induction false} CollectLast(seed: string, first: nat, count: nat)
    requires count > 0
    ensures var last := first + count - 1;
            Collect(NumberedPairs(seed, first, count))
            == Collect(NumberedPairs(seed, first, count - 1))[Decimal(last) := (DerivedPair(seed, last), Derived(last))]
  {
    assert NumberedPairs(seed, first, count)[..count - 1] == NumberedPairs(seed, first, count - 1);
  }

  lemma {:induction false} CollectKeys(seed: string, first: nat, count: nat)
    ensures Collect(NumberedPairs(seed, first, count)).Keys == Names(first, count)
  {
    if count > 0 {
      CollectKeys(seed, first, count - 1);
      CollectLast(seed, first, count);
    }
  }

  lemma {:induction false} CollectAt(seed: string, first: nat, count: nat, i: nat)
    requires first <= i < first + count
    ensures var m := Collect(NumberedPairs(seed, first, count));
            Decimal(i) in m && m[Decimal(i)] == (DerivedPair(seed, i), Derived(i))
    decreases count
  {
    var last := first + count - 1;
    CollectLast(seed, first, count);
    if i < last {
      CollectAt(seed, first, count - 1, i);
      if Decimal(i) == Decimal(last) {
        DecimalInjective(i, last);
      }
    }
  }

  /** The derived map has exactly the printed numbers of the range, each with its own key pair. */
  lemma {:induction false} CollectNumbered(seed: string, first: nat, count: nat)
    ensures Collect(NumberedPairs(seed, first, count)).Keys == Names(first, count)
    ensures |Collect(NumberedPairs(seed, first, count))| == count
    ensures forall i :: first <= i < first + count ==>
      Decimal(i) in Names(first, count)
           && Collect(NumberedPairs(seed, first, count))[Decimal(i)] == (DerivedPair(seed, i), Derived(i))
  {
    var m := Collect(NumberedPairs(seed, first, count));
    CollectKeys(seed, first, count);
    NamesSize(first, count);
    assert |m.Keys| == |m|;
    forall i | first <= i < first + count
      ensures Decimal(i) in m && m[Decimal(i)] == (DerivedPair(seed, i), Derived(i))
    {
      CollectAt(seed, first, count, i);
    }
  }

  /** The numbers from `first` up to `end`, each under its own name and with its own key pair, and
      nothing else. */
  ghost predicate HasExactly(m: AccountMap, seed: string, first: nat, end: nat) {
    && (forall i :: first <= i < end ==> Decimal(i) in m && m[Decimal(i)] == (DerivedPair(seed, i), Derived(i)))
    && (forall name :: name in m ==> exists i :: first <= i < end && Decimal(i) == name)
  }

  lemma {:induction false} NamesAreDecimals(first: nat, count: nat, name: string)
    requires name in Names(first, count)
    ensures exists i :: first <= i < first + count && Decimal(i) == name
  {
    if name in Names(first, count - 1) {
      NamesAreDecimals(first, count - 1, name);
    } else {
      assert Decimal(first + count - 1) == name;
    }
  }

  /** What is derived: a numbered range has exactly its numbers, each with the key pair of its own
      index; a keyring name has the key pair of its development account; anything else panics. */
  lemma {:induction false} DerivedEntries(d: AccountsDescription, seed: string)
    ensures d.Numbered? ==> (DerivedMap(d, seed).Some? <==> d.first <= d.end)
    ensures d.Numbered? && d.first <= d.end ==> HasExactly(DerivedMap(d, seed).value, seed, d.first, d.end)
    ensures d.Keyring? ==>
      DerivedMap(d, seed)
      == if IsKeyringName(d.name) then Some(map[d.name := (KeyringPair(DevAccountOf(d.name).value), KeyRing(d.name))])
         else None
  {
    if d.Numbered? && d.first <= d.end {
      var m, count := DerivedMap(d, seed).value, d.end - d.first;
      CollectNumbered(seed, d.first, count);
      forall name | name in m ensures exists i :: d.first <= i < d.end && Decimal(i) == name {
        assert name in m.Keys;
        NamesAreDecimals(d.first, count, name);
      }
    }
  }

  /** Building succeeds in finding its accounts: nothing panics, and every name has an entry. */
  ghost predicate LookupsSucceed(s: Settings, seed: string) {
    && Accounts(s).Some? && Describe(s).Some?
    && DerivedMap(Describe(s).value, seed).Some?
    && (forall p :: p in AllParams(Accounts(s).value, s.nonceFrom, s.txsCount) ==>
          p.account in DerivedMap(Describe(s).value, seed).value)
  }

  lemma {:induction false} ParamOfAccount(accounts: seq<string>, from: Option<nat>, count: nat, i: nat)
    returns (p: BuildParams)
    requires i < |accounts| && count > 0
    ensures p in AllParams(accounts, from, count) && p.account == accounts[i]
  {
    var m := |accounts| - 1;
    var before, own := AllParams(accounts[..m], from, count), AccountParams(accounts[m], from, count);
    if i < m {
      p := ParamOfAccount(accounts[..m], from, count, i);
      assert p in before + own;
    } else {
      p := own[0];
      assert p in before + own;
    }
  }

  lemma {:induction false} AccountOfParam(accounts: seq<string>, from: Option<nat>, count: nat, p: BuildParams)
    requires p in AllParams(accounts, from, count)
    ensures p.account in accounts
  {
    var m := |accounts| - 1;
    if p in AllParams(accounts[..m], from, count) {
      AccountOfParam(accounts[..m], from, count, p);
      assert accounts == accounts[..m] + [accounts[m]];
    }
  }

  ghost predicate AllFound(accounts: seq<string>, m: AccountMap) {
    forall i :: 0 <= i < |accounts| ==> accounts[i] in m
  }

  /** Looking up every parameter's account is looking up every account. */
  lemma {:induction false} LookupsAreByAccount(s: Settings, seed: string, m: AccountMap)
    requires Accounts(s).Some? && s.txsCount > 0
    requires Describe(s).Some? && DerivedMap(Describe(s).value, seed) == Some(m)
    ensures LookupsSucceed(s, seed) <==> AllFound(Accounts(s).value, m)
  {
    var accounts := Accounts(s).value;
    if LookupsSucceed(s, seed) {
      forall i | 0 <= i < |accounts| ensures accounts[i] in m {
        var p := ParamOfAccount(accounts, s.nonceFrom, s.txsCount, i);
      }
    }
    if AllFound(accounts, m) {
      forall p | p in AllParams(accounts, s.nonceFrom, s.txsCount) ensures p.account in m {
        AccountOfParam(accounts, s.nonceFrom, s.txsCount, p);
      }
    }
  }

  lemma {:induction false} SuccOf(n: nat)
    requires n <= U32_MAX
    ensures WrappingSucc(n) == if n < U32_MAX then n + 1 else 0
  {
  }

  /** The numbers of one range are all among the numbers derived for another one exactly if that
      one covers it. */
  lemma {:induction false} RangeFound(seed: string, start: nat, count: nat, first: nat, derived: nat)
    ensures AllFound(NumberedAccounts(start, count), Collect(NumberedPairs(seed, first, derived)))
            <==> count == 0 || (first <= start && start + count <= first + derived)
  {
    var accounts, m := NumberedAccounts(start, count), Collect(NumberedPairs(seed, first, derived));
    CollectNumbered(seed, first, derived);
    forall i | 0 <= i < count ensures accounts[i] in m <==> first <= start + i < first + derived {
      NamesMember(first, derived, start + i);
    }
    if count > 0 && AllFound(accounts, m) {
      assert accounts[0] in m && accounts[count - 1] in m;
    }
  }

  /** With account numbers: the lookups succeed if and only if the range does not end before it
      begins and its last number is below the largest 32-bit number. */
  lemma {:induction false} NumberedLookups(s: Settings, seed: string)
    requires s.startId.Some? && s.startId.value <= U32_MAX && LastId(s) <= U32_MAX && s.txsCount > 0
    ensures LookupsSucceed(s, seed) <==> LastId(s) < U32_MAX && s.startId.value <= LastId(s) + 1
  {
    var start, last := s.startId.value, LastId(s);
    SuccOf(last);
    var end := WrappingSucc(last);
    assert Describe(s) == Some(Numbered(start, end));
    if start <= end {
      var m := Collect(NumberedPairs(seed, start, end - start));
      LookupsAreByAccount(s, seed, m);
      RangeFound(seed, start, last + 1 - start, start, end - start);
    }
  }

  /** An account id without digits is looked up in the keyring. */
  lemma {:induction false} KeyringLookup(s: Settings, seed: string)
    requires s.startId.None? && s.accountId.Some? && s.txsCount > 0 && Parse(s.accountId.value).None?
    ensures LookupsSucceed(s, seed) <==> IsKeyringName(s.accountId.value)
  {
    var id := s.accountId.value;
    if IsKeyringName(id) {
      var m := map[id := (KeyringPair(DevAccountOf(id).value), KeyRing(id))];
      LookupsAreByAccount(s, seed, m);
    }
  }

  /** An account id that parses is filed under its canonical form. */
  lemma {:induction false} ParsedLookup(s: Settings, seed: string)
    requires s.startId.None? && s.accountId.Some? && s.txsCount > 0 && Parse(s.accountId.value).Some?
    ensures var n := Parse(s.accountId.value).value;
            LookupsSucceed(s, seed) <==> n < U32_MAX && s.accountId.value == Decimal(n)
  {
    var id := s.accountId.value;
    var n := Parse(id).value;
    SuccOf(n);
    assert Describe(s) == Some(Numbered(n, WrappingSucc(n)));
    if n < U32_MAX {
      var m := Collect(NumberedPairs(seed, n, 1));
      LookupsAreByAccount(s, seed, m);
      CollectNumbered(seed, n, 1);
      assert Names(n, 1) == Names(n, 0) + {Decimal(n)};
      assert AllFound([id], m) <==> id in m by {
        assert [id][0] == id;
      }
    }
  }

  /** With an account id: the lookups succeed if and only if the id is the name of a keyring account
      or the canonical form of a number below the largest 32-bit number. */
  lemma {:induction false} NamedLookups(s: Settings, seed: string)
    requires s.startId.None? && s.accountId.Some? && s.txsCount > 0
    ensures LookupsSucceed(s, seed) <==>
            var id := s.accountId.value;
            if Parse(id).None? then IsKeyringName(id)
            else Parse(id).value < U32_MAX && id == Decimal(Parse(id).value)
  {
    if Parse(s.accountId.value).None? {
      KeyringLookup(s, seed);
    } else {
      ParsedLookup(s, seed);
    }
  }

  /**
   * An account id that reads as a number asks for the same derivation as the number given as start
   * id, but it stands for the same accounts if and only if it is written canonically.
   */
  lemma {:induction false} NumericIdLikeStartId(s: Settings, n: nat)
    requires s.startId.None? && s.accountId.Some? && Parse(s.accountId.value) == Some(n)
    ensures var byNumber := s.(startId := Some(n), lastId := None);
            && Describe(s) == Describe(byNumber)
            && (Accounts(s) == Accounts(byNumber) <==> s.accountId.value == Decimal(n))
  {
    var byNumber := s.(startId := Some(n), lastId := None);
    assert NumberedAccounts(n, 1) == [Decimal(n)];
    assert Accounts(s).value[0] == s.accountId.value;
  }

  /** When the lookups succeed, the sink knows exactly the accounts that send. */
  lemma {:induction false} DerivedAreSenders(s: Settings, seed: string, m: AccountMap)
    requires LookupsSucceed(s, seed) && s.txsCount > 0 && DerivedMap(Describe(s).value, seed) == Some(m)
    requires s.startId.Some? ==> s.startId.value <= U32_MAX && LastId(s) <= U32_MAX
    ensures forall a :: a in m <==> a in Accounts(s).value
  {
    var accounts := Accounts(s).value;
    LookupsAreByAccount(s, seed, m);
    DerivedEntries(Describe(s).value, seed);
    if s.startId.Some? {
      NumberedLookups(s, seed);
      SuccOf(LastId(s));
      forall a | a in m ensures a in accounts {
        var i :| s.startId.value <= i < LastId(s) + 1 && Decimal(i) == a;
        assert accounts[i - s.startId.value] == a;
      }
    } else {
      NamedLookups(s, seed);
      ParsedOnly(s, seed, m);
    }
  }

  lemma {:induction false} ParsedOnly(s: Settings, seed: string, m: AccountMap)
    requires s.startId.None? && s.accountId.Some? && DerivedMap(Describe(s).value, seed) == Some(m)
    requires Parse(s.accountId.value).Some? ==>
      Parse(s.accountId.value).value < U32_MAX && s.accountId.value == Decimal(Parse(s.accountId.value).value)
    ensures forall a :: a in m ==> a == s.accountId.value
  {
    DerivedEntries(Describe(s).value, seed);
    if Parse(s.accountId.value).Some? {
      var n := Parse(s.accountId.value).value;
      SuccOf(n);
      forall a | a in m ensures a == s.accountId.value {
        var i :| n <= i < n + 1 && Decimal(i) == a;
      }
    }
  }

  /** A padded number parses but is filed under another name: building for "007" finds no account. */
  lemma {:induction false} PaddedNumberIsNotFound(s: Settings, seed: string)
    requires s.startId.None? && s.accountId == Some("007") && s.txsCount > 0
    ensures Parse("007") == Some(7) && !LookupsSucceed(s, seed)
  {
    assert "007"[..2] == "00" && "00"[..1] == "0" && "0"[..0] == "";
    assert ValueOf("0") == 0 && ValueOf("00") == 0 && ValueOf("007") == 7;
    assert Decimal(7) != "007";
    NamedLookups(s, seed);
  }
}
