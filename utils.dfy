/** The program's error codes and the owner-uniqueness check. */
module Utils {
  import opened Wrappers

  /** A Solana public key. The model only ever compares keys for equality. */
  type Pubkey = nat

  /** The program's error taxonomy, in declaration order. */
  datatype ErrorCode =
    | InvalidOwner              // "The given owner is not part of this multisig."
    | InvalidOwnersLen          // "Owners length must be non zero."
    | NotEnoughSigners          // "Not enough owners signed this transaction."
    | TransactionAlreadySigned  // declared, never raised by the handlers
    | Overflow                  // declared, never raised by the handlers
    | UnableToDelete            // declared, never raised by the handlers
    | AlreadyExecuted           // "The given transaction has already been executed."
    | InvalidThreshold          // "Threshold must be less than or equal to the number of owners."
    | UniqueOwners              // "Owners must be unique"

  /** No two positions of `owners` hold the same key. */
  predicate Distinct(owners: seq<Pubkey>)
  {
    forall i, j :: 0 <= i < j < |owners| ==> owners[i] != owners[j]
  }

  /** The set of keys listed in `owners`. */
  function ToSet(owners: seq<Pubkey>): set<Pubkey>
  {
    set x | x in owners
  }

  /**
   * The loop of `assert_unique_owners` from position `i` on: for each owner,
   * fail with `UniqueOwners` if it occurs again further right.
   */
  function UniqueFrom(owners: seq<Pubkey>, i: nat): (r: Outcome<ErrorCode>)
    requires i <= |owners|
    ensures r == Pass <==> forall j, k :: i <= j < k < |owners| ==> owners[j] != owners[k]
    ensures r != Pass ==> r == Fail(UniqueOwners)
    decreases |owners| - i
  {
    if i == |owners| then Pass
    else if owners[i] in owners[i + 1..] then Fail(UniqueOwners)
    else UniqueFrom(owners, i + 1)
  }

  /** `assert_unique_owners`: `Ok` exactly when the owners are pairwise distinct. */
  function AssertUniqueOwners(owners: seq<Pubkey>): (r: Outcome<ErrorCode>)
    ensures r == Pass <==> Distinct(owners)
    ensures r != Pass ==> r == Fail(UniqueOwners)
    ensures |owners| <= 1 ==> r == Pass
  {
    UniqueFrom(owners, 0)
  }

  /** Distinctness seen element by element: `s[0]` is new and the rest is distinct. */
  lemma DistinctCons(s: seq<Pubkey>)
    requires |s| > 0
    ensures Distinct(s) <==> s[0] !in s[1..] && Distinct(s[1..])
  {
    if Distinct(s) {
      forall j, k | 0 <= j < k < |s[1..]| ensures s[1..][j] != s[1..][k] {
        assert s[1..][j] == s[j + 1] && s[1..][k] == s[k + 1];
      }
    }
    if s[0] !in s[1..] && Distinct(s[1..]) {
      forall j, k | 0 <= j < k < |s| ensures s[j] != s[k] {
        if j == 0 {
          assert s[k] == s[1..][k - 1];
        } else {
          assert s[j] == s[1..][j - 1] && s[k] == s[1..][k - 1];
        }
      }
    }
  }

  /** Distinct owners are exactly those whose multiset holds every key at most once. */
  lemma {:induction false} DistinctIffMultiplicity(s: seq<Pubkey>)
    ensures Distinct(s) <==> forall x :: multiset(s)[x] <= 1
  {
    if s != [] {
      var t := s[1..];
      assert s == [s[0]] + t;
      assert multiset(s) == multiset{s[0]} + multiset(t);
      DistinctCons(s);
      DistinctIffMultiplicity(t);
      if forall x :: multiset(s)[x] <= 1 {
        assert multiset(s)[s[0]] <= 1;
        assert multiset(t)[s[0]] == 0;
        forall x ensures multiset(t)[x] <= 1 {
          assert multiset(t)[x] <= multiset(s)[x];
        }
      }
    }
  }

  /** Reordering the owners does not change the outcome of the uniqueness check. */
  lemma UniqueOwnersPermutation(a: seq<Pubkey>, b: seq<Pubkey>)
    requires multiset(a) == multiset(b)
    ensures AssertUniqueOwners(a) == AssertUniqueOwners(b)
  {
    DistinctIffMultiplicity(a);
    DistinctIffMultiplicity(b);
  }

  /** A list never names more keys than it has positions. */
  lemma {:induction false} ToSetBound(s: seq<Pubkey>)
    ensures |ToSet(s)| <= |s|
  {
    if s != [] {
      ToSetBound(s[1..]);
      assert ToSet(s) == {s[0]} + ToSet(s[1..]);
    }
  }

  /** Owners are distinct exactly when the list is as long as its set of keys. */
  lemma {:induction false} DistinctCardinality(s: seq<Pubkey>)
    ensures Distinct(s) <==> |ToSet(s)| == |s|
  {
    if s != [] {
      var t := s[1..];
      assert ToSet(s) == {s[0]} + ToSet(t);
      DistinctCons(s);
      DistinctCardinality(t);
      if s[0] in t {
        assert ToSet(s) == ToSet(t);
        ToSetBound(t);
      }
    }
  }

  /**
   * A threshold within the length of an owner list that passed the uniqueness
   * check is within the number of distinct owners.
   */
  lemma ThresholdWithinDistinctOwners(owners: seq<Pubkey>, threshold: nat)
    requires AssertUniqueOwners(owners) == Pass
    requires threshold <= |owners|
    ensures threshold <= |ToSet(owners)|
  {
    DistinctCardinality(owners);
  }
}
