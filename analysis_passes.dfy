/**
 * The passes anallyse.py runs over `user_list` once it is populated: the
 * pairwise duplicate scan, the licence-type fill, the partition of each
 * user's plates by type, the selection of the most-used plate of each type,
 * and the report of the transactions on each email user's plates, flagged
 * when the plate is neither selected plate.
 */
module AnalysisPasses {
  import opened Wrappers
  import opened Records
  import opened Analysis

  /** The fields of a listed user the passes read, as they stand. */
  datatype Holder = Holder(
    email: Option<string>,
    number: Option<int>,
    licence: seq<string>,
    firstOnly: seq<string>,
    firstLicence: Option<string>,
    additionalLicence: Option<string>)

  function HolderOf(u: User): Holder
    reads u
  {
    Holder(u.email, u.number, u.licence, u.firstOnly, u.firstLicence, u.additionalLicence)
  }

  /** The holders of a list of users, index by index. */
  function Snapshot(users: seq<User>): (hs: seq<Holder>)
    reads users
    ensures |hs| == |users| && forall i :: 0 <= i < |users| ==> hs[i] == HolderOf(users[i])
  {
    if users == [] then [] else Snapshot(users[..|users| - 1]) + [HolderOf(users[|users| - 1])]
  }

  /** No user object is listed twice. */
  ghost predicate Distinct(users: seq<User>)
  {
    forall i, j :: 0 <= i < j < |users| ==> users[i] != users[j]
  }

  /** A list `add_user` keeps well keyed holds every user object once. */
  lemma KeyedIsDistinct(users: seq<User>)
    requires KeyedUsers(users)
    ensures Distinct(users)
  {
    forall i, j | 0 <= i < j < |users|
      ensures users[i] != users[j]
    {
      MatchesItself(users[i]);
    }
  }

  // ---------------------------------------------------------------------
  // The duplicate scan

  /** What the scan counts, and the (i, j) pairs it records for shared plates. */
  datatype Duplicates = Duplicates(numbers: nat, emails: nat, plates: nat, pairs: seq<(int, int)>)

  const NoDuplicates := Duplicates(0, 0, 0, [])

  function Tally(a: Duplicates, b: Duplicates): Duplicates
  {
    Duplicates(a.numbers + b.numbers, a.emails + b.emails, a.plates + b.plates, a.pairs + b.pairs)
  }

  /** The three things the scan compares. */
  datatype Kind = Phone | Email | Plate

  function Field(d: Duplicates, k: Kind): nat
  {
    match k
    case Phone => d.numbers
    case Email => d.emails
    case Plate => d.plates
  }

  /**
   * Whether two users clash on a kind: the same phone number (a missing
   * number is NaN and equals nothing), the same present email, or some plate
   * of the first in the second's list.
   */
  predicate Clash(a: Holder, b: Holder, k: Kind)
  {
    match k
    case Phone => a.number.Some? && a.number == b.number
    case Email => a.email.Some? && a.email == b.email
    case Plate => exists m :: 0 <= m < |a.licence| && a.licence[m] in b.licence
  }

  /** The inner loop over user i's plates: one count and one (i, j) entry per plate found in user j's list. */
  function SharedPlates(mine: seq<string>, theirs: seq<string>, i: nat, j: nat): Duplicates
  {
    if mine == [] then NoDuplicates
    else
      var rest := SharedPlates(mine[..|mine| - 1], theirs, i, j);
      if mine[|mine| - 1] in theirs then Duplicates(rest.numbers, rest.emails, rest.plates + 1, rest.pairs + [(i, j)]) else rest
  }

  /** One pair (i, j) of the scan. */
  function PairDuplicates(hs: seq<Holder>, i: nat, j: nat): Duplicates
    requires i < |hs| && j < |hs|
  {
    var shared := SharedPlates(hs[i].licence, hs[j].licence, i, j);
    Duplicates(if Clash(hs[i], hs[j], Phone) then 1 else 0, if Clash(hs[i], hs[j], Email) then 1 else 0, shared.plates, shared.pairs)
  }

  /** The pairs (i, j') with i < j' < j, in order of j'. */
  function RowDuplicates(hs: seq<Holder>, i: nat, j: nat): Duplicates
    requires i < j <= |hs|
    decreases j
  {
    if j == i + 1 then NoDuplicates
    else Tally(RowDuplicates(hs, i, j - 1), PairDuplicates(hs, i, j - 1))
  }

  /** The scan over the first i users as the first member of a pair. */
  function ScanDuplicates(hs: seq<Holder>, i: nat): Duplicates
    requires i <= |hs|
  {
    if i == 0 then NoDuplicates
    else Tally(ScanDuplicates(hs, i - 1), RowDuplicates(hs, i - 1, |hs|))
  }

  /** The plates user i shares with user j are counted, each with the entry (i, j); none are counted exactly when none are shared. */
  lemma {:induction false} SharedPlatesFacts(mine: seq<string>, theirs: seq<string>, i: nat, j: nat)
    ensures SharedPlates(mine, theirs, i, j).numbers == 0 && SharedPlates(mine, theirs, i, j).emails == 0
    ensures |SharedPlates(mine, theirs, i, j).pairs| == SharedPlates(mine, theirs, i, j).plates
    ensures forall q :: 0 <= q < |SharedPlates(mine, theirs, i, j).pairs| ==> SharedPlates(mine, theirs, i, j).pairs[q] == (i, j)
    ensures SharedPlates(mine, theirs, i, j).plates == 0 <==> forall m :: 0 <= m < |mine| ==> mine[m] !in theirs
  {
    if mine != [] {
      var n := |mine| - 1;
      SharedPlatesFacts(mine[..n], theirs, i, j);
      assert forall m :: 0 <= m < n ==> mine[..n][m] == mine[m];
    }
  }

  lemma FieldTally(a: Duplicates, b: Duplicates, k: Kind)
    ensures Field(Tally(a, b), k) == Field(a, k) + Field(b, k)
  {
  }

  /** One pair counts a kind exactly when the two users clash on it. */
  lemma PairCounts(hs: seq<Holder>, i: nat, j: nat, k: Kind)
    requires i < |hs| && j < |hs|
    ensures Field(PairDuplicates(hs, i, j), k) == 0 <==> !Clash(hs[i], hs[j], k)
  {
    SharedPlatesFacts(hs[i].licence, hs[j].licence, i, j);
  }

  /** User a clashes on kind k with none of the users strictly between it and j. */
  ghost predicate ClashFree(hs: seq<Holder>, a: nat, j: nat, k: Kind)
    requires a < j <= |hs|
  {
    forall b :: a < b < j ==> !Clash(hs[a], hs[b], k)
  }

  lemma {:induction false} RowCounts(hs: seq<Holder>, i: nat, j: nat, k: Kind)
    requires i < j <= |hs|
    ensures Field(RowDuplicates(hs, i, j), k) == 0 <==> ClashFree(hs, i, j, k)
    decreases j
  {
    if j > i + 1 {
      RowCounts(hs, i, j - 1, k);
      PairCounts(hs, i, j - 1, k);
      FieldTally(RowDuplicates(hs, i, j - 1), PairDuplicates(hs, i, j - 1), k);
    }
  }

  lemma {:induction false} ScanCounts(hs: seq<Holder>, i: nat, k: Kind)
    requires i <= |hs|
    ensures Field(ScanDuplicates(hs, i), k) == 0 <==> forall a :: 0 <= a < i ==> ClashFree(hs, a, |hs|, k)
  {
    if i > 0 {
      var left, right := ScanDuplicates(hs, i - 1), RowDuplicates(hs, i - 1, |hs|);
      ScanCounts(hs, i - 1, k);
      RowCounts(hs, i - 1, |hs|, k);
      FieldTally(left, right, k);
      assert Field(ScanDuplicates(hs, i), k) == Field(left, k) + Field(right, k);
      if forall a :: 0 <= a < i ==> ClashFree(hs, a, |hs|, k) {
        assert ClashFree(hs, i - 1, |hs|, k);
      }
    }
  }

  /** Users a < b with a plate of a in b's list. */
  predicate SharePlate(hs: seq<Holder>, pair: (int, int))
  {
    0 <= pair.0 < pair.1 < |hs| && Clash(hs[pair.0], hs[pair.1], Plate)
  }

  /** The recorded pairs are one per counted plate, each (a, b) sharing a plate, with lo <= a < hi. */
  ghost predicate PairsRecorded(hs: seq<Holder>, r: Duplicates, lo: int, hi: int)
  {
    && |r.pairs| == r.plates
    && forall q :: 0 <= q < |r.pairs| ==> lo <= r.pairs[q].0 < hi && SharePlate(hs, r.pairs[q])
  }

  lemma PairsRecordedWiden(hs: seq<Holder>, r: Duplicates, lo: int, hi: int, lo': int, hi': int)
    requires PairsRecorded(hs, r, lo, hi) && lo' <= lo && hi <= hi'
    ensures PairsRecorded(hs, r, lo', hi')
  {
  }

  lemma PairsRecordedTally(hs: seq<Holder>, left: Duplicates, right: Duplicates, lo: int, hi: int)
    requires PairsRecorded(hs, left, lo, hi) && PairsRecorded(hs, right, lo, hi)
    ensures PairsRecorded(hs, Tally(left, right), lo, hi)
  {
    var r := Tally(left, right);
    forall q | 0 <= q < |r.pairs|
      ensures lo <= r.pairs[q].0 < hi && SharePlate(hs, r.pairs[q])
    {
      if q >= |left.pairs| {
        assert r.pairs[q] == right.pairs[q - |left.pairs|];
      }
    }
  }

  /** Every pair a row records is (i, b) for a later b sharing a plate with i, one per shared plate. */
  lemma {:induction false} RowPairs(hs: seq<Holder>, i: nat, j: nat)
    requires i < j <= |hs|
    ensures PairsRecorded(hs, RowDuplicates(hs, i, j), i, i + 1)
    decreases j
  {
    if j > i + 1 {
      RowPairs(hs, i, j - 1);
      SharedPlatesFacts(hs[i].licence, hs[j - 1].licence, i, j - 1);
      PairCounts(hs, i, j - 1, Plate);
      var right := PairDuplicates(hs, i, j - 1);
      assert PairsRecorded(hs, right, i, i + 1) by {
        forall q | 0 <= q < |right.pairs|
          ensures i <= right.pairs[q].0 < i + 1 && SharePlate(hs, right.pairs[q])
        {
          assert right.pairs[q] == (i, j - 1);
        }
      }
      PairsRecordedTally(hs, RowDuplicates(hs, i, j - 1), right, i, i + 1);
    }
  }

  /** Every pair the scan of the first i users records is (a, b) with a < i, a < b, and a plate of a in b's list. */
  lemma {:induction false} ScanPairs(hs: seq<Holder>, i: nat)
    requires i <= |hs|
    ensures PairsRecorded(hs, ScanDuplicates(hs, i), 0, i)
  {
    if i > 0 {
      ScanPairs(hs, i - 1);
      RowPairs(hs, i - 1, |hs|);
      PairsRecordedWiden(hs, ScanDuplicates(hs, i - 1), 0, i - 1, 0, i);
      PairsRecordedWiden(hs, RowDuplicates(hs, i - 1, |hs|), i - 1, i, 0, i);
      PairsRecordedTally(hs, ScanDuplicates(hs, i - 1), RowDuplicates(hs, i - 1, |hs|), 0, i);
    }
  }

  /**
   * The duplicate scan over all pairs i < j: equal phone numbers, equal
   * present emails, and each plate of user i found in user j's list, with
   * (i, j) recorded once per such plate.
   */
  method ScanForDuplicates(users: seq<User>) returns (d: Duplicates)
    ensures d == ScanDuplicates(Snapshot(users), |users|)
  {
    ghost var hs := Snapshot(users);
    var numbers, emails, plates := 0, 0, 0;
    var pairs: seq<(int, int)> := [];
    for i := 0 to |users|
      invariant Duplicates(numbers, emails, plates, pairs) == ScanDuplicates(hs, i)
    {
      numbers, emails, plates, pairs := ScanRow(users, hs, i, numbers, emails, plates, pairs);
    }
    return Duplicates(numbers, emails, plates, pairs);
  }

  /** The inner loop of the scan: user i against every later user j, adding to the counters. */
  method ScanRow(users: seq<User>, ghost hs: seq<Holder>, i: nat,
                 numbers0: nat, emails0: nat, plates0: nat, pairs0: seq<(int, int)>)
    returns (numbers: nat, emails: nat, plates: nat, pairs: seq<(int, int)>)
    requires hs == Snapshot(users) && i < |users|
    ensures Duplicates(numbers, emails, plates, pairs)
         == Tally(Duplicates(numbers0, emails0, plates0, pairs0), RowDuplicates(hs, i, |users|))
  {
    ghost var scanned := Duplicates(numbers0, emails0, plates0, pairs0);
    numbers, emails, plates, pairs := numbers0, emails0, plates0, pairs0;
    for j := i + 1 to |users|
      invariant Duplicates(numbers, emails, plates, pairs) == Tally(scanned, RowDuplicates(hs, i, j))
    {
      ghost var before := Duplicates(numbers, emails, plates, pairs);
      if users[i].number.Some? && users[i].number == users[j].number {
        numbers := numbers + 1;
      }
      if users[i].email.Some? && users[i].email == users[j].email {
        emails := emails + 1;
      }
      ghost var mid := Duplicates(numbers, emails, plates, pairs);
      plates, pairs := AddSharedPlates(users[i].licence, users[j].licence, i, j, plates, pairs);
      RowStep(hs, scanned, before, mid, Duplicates(numbers, emails, plates, pairs), i, j);
    }
  }

  /** The plate loop for users i and j: each plate of user i found in user j's list counts once and records (i, j). */
  method AddSharedPlates(mine: seq<string>, theirs: seq<string>, i: nat, j: nat, plates0: nat, pairs0: seq<(int, int)>)
    returns (plates: nat, pairs: seq<(int, int)>)
    ensures plates == plates0 + SharedPlates(mine, theirs, i, j).plates
    ensures pairs == pairs0 + SharedPlates(mine, theirs, i, j).pairs
  {
    plates, pairs := plates0, pairs0;
    for k := 0 to |mine|
      invariant plates == plates0 + SharedPlates(mine[..k], theirs, i, j).plates
      invariant pairs == pairs0 + SharedPlates(mine[..k], theirs, i, j).pairs
    {
      SharedPlatesStep(mine, theirs, i, j, k);
      if mine[k] in theirs {
        plates := plates + 1;
        pairs := pairs + [(i, j)];
      }
    }
    assert mine[..|mine|] == mine;
  }

  lemma SharedPlatesStep(mine: seq<string>, theirs: seq<string>, i: nat, j: nat, k: nat)
    requires k < |mine|
    ensures var before, after := SharedPlates(mine[..k], theirs, i, j), SharedPlates(mine[..k + 1], theirs, i, j);
      if mine[k] in theirs then after.plates == before.plates + 1 && after.pairs == before.pairs + [(i, j)]
      else after == before
  {
    assert mine[..k + 1][..k] == mine[..k];
  }

  /** One pair of the scan done: the counters hold the scan so far and the row up to j + 1. */
  lemma RowStep(hs: seq<Holder>, scanned: Duplicates, before: Duplicates, mid: Duplicates, after: Duplicates, i: nat, j: nat)
    requires i < j < |hs|
    requires before == Tally(scanned, RowDuplicates(hs, i, j))
    requires mid.numbers == before.numbers + (if Clash(hs[i], hs[j], Phone) then 1 else 0)
    requires mid.emails == before.emails + (if Clash(hs[i], hs[j], Email) then 1 else 0)
    requires mid.plates == before.plates && mid.pairs == before.pairs
    requires after.numbers == mid.numbers && after.emails == mid.emails
    requires after.plates == mid.plates + SharedPlates(hs[i].licence, hs[j].licence, i, j).plates
    requires after.pairs == mid.pairs + SharedPlates(hs[i].licence, hs[j].licence, i, j).pairs
    ensures after == Tally(scanned, RowDuplicates(hs, i, j + 1))
  {
  }

  /** A scan count is zero exactly when no pair of users clashes on its kind. */
  lemma NoDuplicatesIff(hs: seq<Holder>, k: Kind)
    ensures Field(ScanDuplicates(hs, |hs|), k) == 0 <==> forall a, b :: 0 <= a < b < |hs| ==> !Clash(hs[a], hs[b], k)
  {
    ScanCounts(hs, |hs|, k);
    if Field(ScanDuplicates(hs, |hs|), k) == 0 {
      forall a, b | 0 <= a < b < |hs|
        ensures !Clash(hs[a], hs[b], k)
      {
        assert ClashFree(hs, a, |hs|, k);
      }
    }
  }

  /**
   * Every recorded pair (i, j) has i < j and a plate of user i in user j's
   * list, and there are as many pairs as shared plates counted.
   */
  lemma PairsAreSharedPlates(hs: seq<Holder>)
    ensures |ScanDuplicates(hs, |hs|).pairs| == ScanDuplicates(hs, |hs|).plates
    ensures forall q :: 0 <= q < |ScanDuplicates(hs, |hs|).pairs| ==> SharePlate(hs, ScanDuplicates(hs, |hs|).pairs[q])
  {
    ScanPairs(hs, |hs|);
  }

  /** `add_user` merges users with the same email, so the scan never counts a duplicate email. */
  lemma KeyedHasNoEmailDuplicates(users: seq<User>)
    requires KeyedUsers(users)
    ensures ScanDuplicates(Snapshot(users), |users|).emails == 0
  {
    var hs := Snapshot(users);
    forall a, b | 0 <= a < b < |hs|
      ensures !Clash(hs[a], hs[b], Email)
    {
      assert !Matches(users[a], users[b]);
    }
    NoDuplicatesIff(hs, Email);
  }

  // ---------------------------------------------------------------------
  // The licence-type fill

  const FirstProgram: string := "Kellogg Square Residents - 1 st Vehicle"
  const AdditionalProgram: string := "Kellogg Square Residents -Additional Vehicle"

  /** The type a programme gives: First for the exact 1st-vehicle name, Additional for any other. */
  function TypeOfProgram(program: string): (t: LicenceType)
    ensures t == First <==> program == FirstProgram
    ensures program == AdditionalProgram ==> t == Additional
  {
    if program == FirstProgram then First else Additional
  }

  /** Whether a row is one for this email and plate, both compared as read (not stripped). */
  predicate RowFor(row: SubscriptionRow, email: string, plate: string)
  {
    row.email == Some(email) && row.plate == plate
  }

  /** The type of the last row for this email and plate; None when no row is for them. */
  function LastRowType(rows: seq<SubscriptionRow>, email: string, plate: string): Option<LicenceType>
  {
    if rows == [] then None
    else if RowFor(rows[|rows| - 1], email, plate) then Some(TypeOfProgram(rows[|rows| - 1].program))
    else LastRowType(rows[..|rows| - 1], email, plate)
  }

  /** Row j is the last row for this email and plate. */
  predicate LastRowFor(rows: seq<SubscriptionRow>, j: int, email: string, plate: string)
  {
    && 0 <= j < |rows| && RowFor(rows[j], email, plate)
    && forall k :: j < k < |rows| ==> !RowFor(rows[k], email, plate)
  }

  /**
   * A plate gets a type exactly when some row is for the email and plate,
   * and then it is the type of the last such row.
   */
  lemma {:induction false} LastRowTypeIsLastRow(rows: seq<SubscriptionRow>, email: string, plate: string)
    ensures LastRowType(rows, email, plate).None? <==> forall j :: 0 <= j < |rows| ==> !RowFor(rows[j], email, plate)
    ensures LastRowType(rows, email, plate).Some? ==>
      exists j :: LastRowFor(rows, j, email, plate) && LastRowType(rows, email, plate).value == TypeOfProgram(rows[j].program)
  {
    if rows != [] {
      var n := |rows| - 1;
      LastRowTypeIsLastRow(rows[..n], email, plate);
      assert forall j :: 0 <= j < n ==> rows[..n][j] == rows[j];
      if RowFor(rows[n], email, plate) {
        assert LastRowFor(rows, n, email, plate);
      } else if LastRowType(rows, email, plate).Some? {
        var j :| LastRowFor(rows[..n], j, email, plate) && LastRowType(rows[..n], email, plate).value == TypeOfProgram(rows[..n][j].program);
        assert LastRowFor(rows, j, email, plate);
      }
    }
  }

  /** The type the fill gives plate i of a user: the last matching row's for an email user, none for an id user. */
  function TypeFor(email: Option<string>, plate: string, rows: seq<SubscriptionRow>): Option<LicenceType>
  {
    if email.Some? then LastRowType(rows, email.value, plate) else None
  }

  /** The user's types are filled: one per plate, as the fill gives them. */
  ghost predicate Typed(u: User, rows: seq<SubscriptionRow>)
    reads u
  {
    |u.licenceType| == |u.licence|
    && forall i :: 0 <= i < |u.licence| ==> u.licenceType[i] == TypeFor(u.email, u.licence[i], rows)
  }

  /**
   * The fill for one user: every type starts as None; for an email user,
   * each plate takes the type of every row for its email and plate in turn,
   * so the last such row wins.
   */
  method FillTypes(user: User, rows: seq<SubscriptionRow>)
    modifies user`licenceType
    ensures Typed(user, rows)
  {
    user.licenceType := seq(|user.licence|, _ => None);
    if user.email.Some? {
      var email := user.email.value;
      for i := 0 to |user.licence|
        invariant |user.licenceType| == |user.licence|
        invariant forall k :: 0 <= k < i ==> user.licenceType[k] == LastRowType(rows, email, user.licence[k])
        invariant forall k :: i <= k < |user.licence| ==> user.licenceType[k].None?
      {
        var plate := user.licence[i];
        for j := 0 to |rows|
          invariant |user.licenceType| == |user.licence|
          invariant forall k :: 0 <= k < i ==> user.licenceType[k] == LastRowType(rows, email, user.licence[k])
          invariant forall k :: i < k < |user.licence| ==> user.licenceType[k].None?
          invariant user.licenceType[i] == LastRowType(rows[..j], email, plate)
        {
          assert rows[..j + 1][..j] == rows[..j];
          if rows[j].email == user.email && rows[j].plate == plate {
            user.licenceType := user.licenceType[i := Some(TypeOfProgram(rows[j].program))];
          }
        }
        assert rows[..|rows|] == rows;
      }
    }
  }

  /** The fill over the whole list. */
  method FillAllTypes(users: seq<User>, rows: seq<SubscriptionRow>)
    modifies users`licenceType
    ensures forall j :: 0 <= j < |users| ==> Typed(users[j], rows)
  {
    for i := 0 to |users|
      invariant forall j :: 0 <= j < i ==> Typed(users[j], rows)
    {
      FillTypes(users[i], rows);
    }
  }

  /**
   * The assertion after the fill holds for an email user exactly when every
   * plate of the user has a row with the user's email and that plate as read.
   * The user's email and plates were stripped, the rows' are not, so a row
   * with surrounding spaces in either leaves its plate without a type.
   */
  lemma TypesPresentIff(u: User, rows: seq<SubscriptionRow>)
    requires Typed(u, rows) && u.email.Some?
    ensures (forall i :: 0 <= i < |u.licence| ==> u.licenceType[i].Some?)
        <==> (forall i :: 0 <= i < |u.licence| ==> HasRow(rows, u.email.value, u.licence[i]))
  {
    forall i | 0 <= i < |u.licence|
      ensures u.licenceType[i].Some? <==> HasRow(rows, u.email.value, u.licence[i])
    {
      TypeFoundIff(rows, u.email.value, u.licence[i]);
    }
  }

  /** Some row has this email and this plate, as read. */
  ghost predicate HasRow(rows: seq<SubscriptionRow>, email: string, plate: string)
  {
    exists j :: 0 <= j < |rows| && RowFor(rows[j], email, plate)
  }

  /** A plate gets a type exactly when some row has the email and the plate. */
  lemma TypeFoundIff(rows: seq<SubscriptionRow>, email: string, plate: string)
    ensures LastRowType(rows, email, plate).Some? <==> HasRow(rows, email, plate)
  {
    LastRowTypeIsLastRow(rows, email, plate);
  }

  // ---------------------------------------------------------------------
  // The partition by type

  /** The plates whose type at the same index is t, in plate order. */
  function PlatesOfType(licence: seq<string>, types: seq<Option<LicenceType>>, t: Option<LicenceType>): seq<string>
    requires |types| == |licence|
  {
    if licence == [] then []
    else
      var n := |licence| - 1;
      PlatesOfType(licence[..n], types[..n], t) + (if types[n] == t then [licence[n]] else [])
  }

  /** A plate is in the list of type t exactly when it is at an index whose type is t. */
  lemma {:induction false} PlatesOfTypeMembers(licence: seq<string>, types: seq<Option<LicenceType>>, t: Option<LicenceType>)
    requires |types| == |licence|
    ensures forall p :: p in PlatesOfType(licence, types, t) <==> exists i :: 0 <= i < |licence| && types[i] == t && licence[i] == p
  {
    if licence != [] {
      var n := |licence| - 1;
      PlatesOfTypeMembers(licence[..n], types[..n], t);
      assert forall i :: 0 <= i < n ==> licence[..n][i] == licence[i] && types[..n][i] == types[i];
    }
  }

  /** One more plate: it is kept in the list of its own type only. */
  lemma LastPlateStep(licence: seq<string>, types: seq<Option<LicenceType>>, t: Option<LicenceType>)
    requires |types| == |licence| && licence != []
    ensures var n := |licence| - 1;
      multiset(PlatesOfType(licence, types, t))
        == multiset(PlatesOfType(licence[..n], types[..n], t)) + (if types[n] == t then multiset{licence[n]} else multiset{})
  {
  }

  lemma PlatesOfTypeStep(licence: seq<string>, types: seq<Option<LicenceType>>, t: Option<LicenceType>, i: nat)
    requires |types| == |licence| && i < |licence|
    ensures PlatesOfType(licence[..i + 1], types[..i + 1], t)
         == PlatesOfType(licence[..i], types[..i], t) + (if types[i] == t then [licence[i]] else [])
  {
    assert licence[..i + 1][..i] == licence[..i];
    assert types[..i + 1][..i] == types[..i];
  }

  /**
   * The partition for one user: each plate goes to the additional, first or
   * other list by the type at its index (no type counts as other), order kept.
   */
  method Partition(user: User)
    requires |user.licenceType| == |user.licence|
    modifies user`firstOnly, user`additionalOnly, user`otherLicence
    ensures user.additionalOnly == old(user.additionalOnly) + PlatesOfType(user.licence, user.licenceType, Some(Additional))
    ensures user.firstOnly == old(user.firstOnly) + PlatesOfType(user.licence, user.licenceType, Some(First))
    ensures user.otherLicence == old(user.otherLicence) + PlatesOfType(user.licence, user.licenceType, None)
  {
    for i := 0 to |user.licence|
      invariant user.additionalOnly == old(user.additionalOnly) + PlatesOfType(user.licence[..i], user.licenceType[..i], Some(Additional))
      invariant user.firstOnly == old(user.firstOnly) + PlatesOfType(user.licence[..i], user.licenceType[..i], Some(First))
      invariant user.otherLicence == old(user.otherLicence) + PlatesOfType(user.licence[..i], user.licenceType[..i], None)
    {
      PlatesOfTypeStep(user.licence, user.licenceType, Some(Additional), i);
      PlatesOfTypeStep(user.licence, user.licenceType, Some(First), i);
      PlatesOfTypeStep(user.licence, user.licenceType, None, i);
      match user.licenceType[i]
      case Some(Additional) =>
        user.additionalOnly := user.additionalOnly + [user.licence[i]];
      case Some(First) =>
        user.firstOnly := user.firstOnly + [user.licence[i]];
      case None =>
        user.otherLicence := user.otherLicence + [user.licence[i]];
    }
    assert user.licence[..|user.licence|] == user.licence;
    assert user.licenceType[..|user.licence|] == user.licenceType;
  }

  /** Every plate lands in exactly one of the three lists: together they hold the plates, each as often. */
  lemma {:induction false} PartitionIsExact(licence: seq<string>, types: seq<Option<LicenceType>>)
    requires |types| == |licence|
    ensures multiset(PlatesOfType(licence, types, Some(First)))
          + multiset(PlatesOfType(licence, types, Some(Additional)))
          + multiset(PlatesOfType(licence, types, None)) == multiset(licence)
  {
    if licence != [] {
      var n := |licence| - 1;
      var head, types' := licence[..n], types[..n];
      PartitionIsExact(head, types');
      assert licence == head + [licence[n]];
      LastPlateStep(licence, types, Some(First));
      LastPlateStep(licence, types, Some(Additional));
      LastPlateStep(licence, types, None);
      var first := multiset(PlatesOfType(head, types', Some(First)));
      var additional := multiset(PlatesOfType(head, types', Some(Additional)));
      var other := multiset(PlatesOfType(head, types', None));
      var last := multiset{licence[n]};
      var first', additional', other' := multiset(PlatesOfType(licence, types, Some(First))),
        multiset(PlatesOfType(licence, types, Some(Additional))), multiset(PlatesOfType(licence, types, None));
      assert first + additional + other + last == multiset(licence);
      match types[n]
      case Some(First) =>
        assert first' == first + last && additional' == additional && other' == other;
        AddedToOne(first, additional, other, last);
      case Some(Additional) =>
        assert first' == first && additional' == additional + last && other' == other;
        AddedToOne(first, additional, other, last);
      case None =>
        assert first' == first && additional' == additional && other' == other + last;
    }
  }

  lemma AddedToOne(a: multiset<string>, b: multiset<string>, c: multiset<string>, x: multiset<string>)
    ensures (a + x) + b + c == a + b + c + x
    ensures a + (b + x) + c == a + b + c + x
  {
  }

  /** An id user's types are all None, so all its plates are other plates. */
  lemma IdUserPlatesAreOther(u: User, rows: seq<SubscriptionRow>)
    requires Typed(u, rows) && u.email.None?
    ensures PlatesOfType(u.licence, u.licenceType, None) == u.licence
    ensures PlatesOfType(u.licence, u.licenceType, Some(First)) == []
    ensures PlatesOfType(u.licence, u.licenceType, Some(Additional)) == []
  {
    AllOfType(u.licence, u.licenceType);
  }

  lemma {:induction false} AllOfType(licence: seq<string>, types: seq<Option<LicenceType>>)
    requires |types| == |licence| && forall i :: 0 <= i < |types| ==> types[i].None?
    ensures PlatesOfType(licence, types, None) == licence
    ensures PlatesOfType(licence, types, Some(First)) == []
    ensures PlatesOfType(licence, types, Some(Additional)) == []
  {
    if licence != [] {
      var n := |licence| - 1;
      var head, types' := licence[..n], types[..n];
      assert forall i :: 0 <= i < |types'| ==> types'[i] == types[i];
      AllOfType(head, types');
      assert types[n].None?;
      assert PlatesOfType(licence, types, None) == PlatesOfType(head, types', None) + [licence[n]];
      assert PlatesOfType(licence, types, Some(First)) == PlatesOfType(head, types', Some(First)) + [];
      assert PlatesOfType(licence, types, Some(Additional)) == PlatesOfType(head, types', Some(Additional)) + [];
      assert licence == head + [licence[n]];
    }
  }

  /** The partition over the whole list. */
  method PartitionAll(users: seq<User>)
    requires Distinct(users)
    requires forall j :: 0 <= j < |users| ==> |users[j].licenceType| == |users[j].licence|
    modifies users`firstOnly, users`additionalOnly, users`otherLicence
    ensures forall j :: 0 <= j < |users| ==>
      users[j].firstOnly == old(users[j].firstOnly) + PlatesOfType(users[j].licence, users[j].licenceType, Some(First))
      && users[j].additionalOnly == old(users[j].additionalOnly) + PlatesOfType(users[j].licence, users[j].licenceType, Some(Additional))
      && users[j].otherLicence == old(users[j].otherLicence) + PlatesOfType(users[j].licence, users[j].licenceType, None)
  {
    for i := 0 to |users|
      invariant forall j :: 0 <= j < i ==>
        users[j].firstOnly == old(users[j].firstOnly) + PlatesOfType(users[j].licence, users[j].licenceType, Some(First))
        && users[j].additionalOnly == old(users[j].additionalOnly) + PlatesOfType(users[j].licence, users[j].licenceType, Some(Additional))
        && users[j].otherLicence == old(users[j].otherLicence) + PlatesOfType(users[j].licence, users[j].licenceType, None)
      invariant forall j :: i <= j < |users| ==>
        users[j].firstOnly == old(users[j].firstOnly) && users[j].additionalOnly == old(users[j].additionalOnly)
        && users[j].otherLicence == old(users[j].otherLicence)
    {
      Partition(users[i]);
    }
  }

  // ---------------------------------------------------------------------
  // The selection of the most-used plate of each type

  /** How many transactions are on plate p, compared as read. */
  function UseCount(txs: seq<Transaction>, p: string): nat
  {
    if txs == [] then 0
    else UseCount(txs[..|txs| - 1], p) + (if txs[|txs| - 1].plate == p then 1 else 0)
  }

  /** `max(counts)`. */
  function Max(counts: seq<nat>): (m: nat)
    requires counts != []
    ensures m in counts && forall i :: 0 <= i < |counts| ==> counts[i] <= m
  {
    if |counts| == 1 then counts[0]
    else
      var rest := Max(counts[1..]);
      if counts[0] >= rest then counts[0] else rest
  }

  /** `counts.index(x)`: the first index holding x. */
  function IndexOf(counts: seq<nat>, x: nat): (i: nat)
    requires x in counts
    ensures i < |counts| && counts[i] == x && forall k :: 0 <= k < i ==> counts[k] != x
  {
    if counts[0] == x then 0 else 1 + IndexOf(counts[1..], x)
  }

  /** The transaction count of each plate. */
  function Counts(plates: seq<string>, txs: seq<Transaction>): (r: seq<nat>)
  {
    seq(|plates|, i requires 0 <= i < |plates| => UseCount(txs, plates[i]))
  }

  /** Plate k has the largest transaction count of the list, and every earlier plate a smaller one. */
  predicate IsMostUsed(plates: seq<string>, txs: seq<Transaction>, k: nat)
  {
    && k < |plates|
    && (forall j :: 0 <= j < |plates| ==> UseCount(txs, plates[j]) <= UseCount(txs, plates[k]))
    && (forall j :: 0 <= j < k ==> UseCount(txs, plates[j]) < UseCount(txs, plates[k]))
  }

  /**
   * The plate selected from a list: none for an empty list; otherwise one
   * with the largest transaction count, the earliest on ties.
   */
  function MostUsed(plates: seq<string>, txs: seq<Transaction>): (r: Option<string>)
    ensures r.None? <==> plates == []
    ensures r.Some? ==> exists k: nat :: IsMostUsed(plates, txs, k) && r.value == plates[k]
  {
    if plates == [] then None
    else
      var counts := Counts(plates, txs);
      var k := IndexOf(counts, Max(counts));
      assert forall j :: 0 <= j < |plates| ==> counts[j] == UseCount(txs, plates[j]);
      assert IsMostUsed(plates, txs, k);
      Some(plates[k])
  }

  /** The frequency loop: each plate's count, by a scan of all transactions. */
  method Frequencies(plates: seq<string>, txs: seq<Transaction>) returns (frequency: seq<nat>)
    ensures frequency == Counts(plates, txs)
  {
    frequency := seq(|plates|, _ => 0);
    for i := 0 to |plates|
      invariant |frequency| == |plates|
      invariant forall k :: 0 <= k < i ==> frequency[k] == UseCount(txs, plates[k])
      invariant forall k :: i <= k < |plates| ==> frequency[k] == 0
    {
      var plate := plates[i];
      for index := 0 to |txs|
        invariant |frequency| == |plates|
        invariant forall k :: 0 <= k < i ==> frequency[k] == UseCount(txs, plates[k])
        invariant forall k :: i < k < |plates| ==> frequency[k] == 0
        invariant frequency[i] == UseCount(txs[..index], plate)
      {
        assert txs[..index + 1][..index] == txs[..index];
        if plate == txs[index].plate {
          frequency := frequency[i := frequency[i] + 1];
        }
      }
      assert txs[..|txs|] == txs;
    }
  }

  /**
   * The selection for one user: an email user with first-type plates gets
   * the most-used one as first vehicle, and likewise for additional plates;
   * otherwise the selection is left as it was.
   */
  method SelectVehicles(user: User, txs: seq<Transaction>)
    modifies user`firstLicence, user`additionalLicence
    ensures user.email.Some? && user.firstOnly != [] ==> user.firstLicence == MostUsed(user.firstOnly, txs)
    ensures !(user.email.Some? && user.firstOnly != []) ==> user.firstLicence == old(user.firstLicence)
    ensures user.email.Some? && user.additionalOnly != [] ==> user.additionalLicence == MostUsed(user.additionalOnly, txs)
    ensures !(user.email.Some? && user.additionalOnly != []) ==> user.additionalLicence == old(user.additionalLicence)
  {
    if user.email.Some? {
      var firstFrequency := Frequencies(user.firstOnly, txs);
      var additionalFrequency := Frequencies(user.additionalOnly, txs);
      if |firstFrequency| != 0 {
        var maximum := Max(firstFrequency);
        var maxIndex := IndexOf(firstFrequency, maximum);
        user.firstLicence := Some(user.firstOnly[maxIndex]);
      }
      if |additionalFrequency| != 0 {
        var maximum := Max(additionalFrequency);
        var maxIndex := IndexOf(additionalFrequency, maximum);
        user.additionalLicence := Some(user.additionalOnly[maxIndex]);
      }
    }
  }

  /** What the selection leaves in one user. */
  ghost predicate SelectedFrom(u: User, txs: seq<Transaction>, firstBefore: Option<string>, additionalBefore: Option<string>)
    reads u
  {
    && u.firstLicence == (if u.email.Some? && u.firstOnly != [] then MostUsed(u.firstOnly, txs) else firstBefore)
    && u.additionalLicence == (if u.email.Some? && u.additionalOnly != [] then MostUsed(u.additionalOnly, txs) else additionalBefore)
  }

  /** The selection over the whole list. */
  method SelectAll(users: seq<User>, txs: seq<Transaction>)
    requires Distinct(users)
    modifies users`firstLicence, users`additionalLicence
    ensures forall j :: 0 <= j < |users| ==>
      SelectedFrom(users[j], txs, old(users[j].firstLicence), old(users[j].additionalLicence))
  {
    for i := 0 to |users|
      invariant forall j :: 0 <= j < i ==>
        SelectedFrom(users[j], txs, old(users[j].firstLicence), old(users[j].additionalLicence))
      invariant forall j :: i <= j < |users| ==>
        users[j].firstLicence == old(users[j].firstLicence) && users[j].additionalLicence == old(users[j].additionalLicence)
    {
      SelectVehicles(users[i], txs);
    }
  }

  // ---------------------------------------------------------------------
  // The flag report

  /** One line of the final report; the running duration total is not part of it. */
  datatype ReportRow = ReportRow(
    email: Option<string>,
    startDate: string,
    startTime: string,
    endDate: string,
    exitTime: string,
    duration: string,
    plate: string,
    userId: int,
    flagged: bool,
    noFirst: bool)

  /** A plate is flagged when it is neither selected plate; an unset selection matches no plate. */
  predicate Flagged(h: Holder, plate: string)
  {
    Some(plate) != h.firstLicence && Some(plate) != h.additionalLicence
  }

  /** The report line of one transaction on one of the user's plates, as written: the exit time is read from the start-time column. */
  function RowAsWritten(h: Holder, plate: string, tx: Transaction): (r: ReportRow)
    ensures r.exitTime == tx.startTime
  {
    ReportRow(h.email, tx.startDate, tx.startTime, tx.endDate, tx.startTime, tx.duration, plate, tx.userId,
              Flagged(h, plate), h.firstOnly == [])
  }

  /** The report line with the exit time read from the end-time column. */
  function Row(h: Holder, plate: string, tx: Transaction): (r: ReportRow)
    ensures r.exitTime == tx.endTime && r.startTime == tx.startTime && r.plate == plate && r.email == h.email
    ensures r.flagged <==> Flagged(h, plate)
    ensures r.noFirst <==> h.firstOnly == []
  {
    ReportRow(h.email, tx.startDate, tx.startTime, tx.endDate, tx.endTime, tx.duration, plate, tx.userId,
              Flagged(h, plate), h.firstOnly == [])
  }

  /** The exit time as written is the entry time: every visit that ends at another time is reported wrongly. */
  lemma ExitTimeIsStartTime(h: Holder, plate: string, tx: Transaction)
    ensures RowAsWritten(h, plate, tx).exitTime == tx.startTime
    ensures tx.endTime != tx.startTime ==> RowAsWritten(h, plate, tx) != Row(h, plate, tx)
    ensures tx.endTime == tx.startTime ==> RowAsWritten(h, plate, tx) == Row(h, plate, tx)
  {
  }

  /** One report line per transaction on the plate, in transaction order. */
  function PlateRows(h: Holder, plate: string, txs: seq<Transaction>): seq<ReportRow>
  {
    if txs == [] then []
    else
      var n := |txs| - 1;
      PlateRows(h, plate, txs[..n]) + (if txs[n].plate == plate then [Row(h, plate, txs[n])] else [])
  }

  /** The report lines of the given plates of a user, plate by plate. */
  function HolderRows(h: Holder, plates: seq<string>, txs: seq<Transaction>): seq<ReportRow>
  {
    if plates == [] then []
    else
      var n := |plates| - 1;
      HolderRows(h, plates[..n], txs) + PlateRows(h, plates[n], txs)
  }

  /** The line is one of h's, on one of the given plates, with h's flags. */
  predicate LineOf(h: Holder, plates: seq<string>, row: ReportRow)
  {
    && row.plate in plates && row.email == h.email
    && (row.flagged <==> Flagged(h, row.plate)) && (row.noFirst <==> h.firstOnly == [])
  }

  ghost predicate LinesOf(h: Holder, plates: seq<string>, lines: seq<ReportRow>)
  {
    forall q :: 0 <= q < |lines| ==> LineOf(h, plates, lines[q])
  }

  /** A plate has one line per transaction on it, each with the user's flags for the plate. */
  lemma {:induction false} PlateRowsFacts(h: Holder, plate: string, txs: seq<Transaction>)
    ensures |PlateRows(h, plate, txs)| == UseCount(txs, plate)
    ensures LinesOf(h, [plate], PlateRows(h, plate, txs))
  {
    if txs != [] {
      PlateRowsFacts(h, plate, txs[..|txs| - 1]);
    }
  }

  /** Every line of a user's plates is on one of them and carries the user's flags. */
  lemma {:induction false} HolderRowsFacts(h: Holder, plates: seq<string>, txs: seq<Transaction>)
    ensures LinesOf(h, plates, HolderRows(h, plates, txs))
  {
    if plates != [] {
      var n := |plates| - 1;
      HolderRowsFacts(h, plates[..n], txs);
      PlateRowsFacts(h, plates[n], txs);
      var left, right := HolderRows(h, plates[..n], txs), PlateRows(h, plates[n], txs);
      forall q | 0 <= q < |left| + |right|
        ensures LineOf(h, plates, (left + right)[q])
      {
        if q < |left| {
          assert LineOf(h, plates[..n], left[q]);
          assert left[q].plate in plates[..n];
        } else {
          assert LineOf(h, [plates[n]], right[q - |left|]);
        }
      }
    }
  }

  /** The line belongs to email user i: its email, one of its plates, and the user's flags. */
  predicate ReportedFor(hs: seq<Holder>, i: int, row: ReportRow)
  {
    0 <= i < |hs| && hs[i].email.Some? && LineOf(hs[i], hs[i].licence, row)
  }

  /** Every line belongs to some email user of hs. */
  ghost predicate AllReported(hs: seq<Holder>, lines: seq<ReportRow>)
  {
    forall q :: 0 <= q < |lines| ==> Reported(hs, lines[q])
  }

  /** The line belongs to some email user of hs. */
  ghost predicate Reported(hs: seq<Holder>, row: ReportRow)
  {
    exists i :: ReportedFor(hs, i, row)
  }

  /** The report: the lines of every email user, user by user; id users have none. */
  function Report(hs: seq<Holder>, txs: seq<Transaction>): seq<ReportRow>
  {
    if hs == [] then []
    else
      var n := |hs| - 1;
      var h := hs[n];
      Report(hs[..n], txs) + (if h.email.Some? then HolderRows(h, h.licence, txs) else [])
  }

  /**
   * The report loop: for each email user, each plate in order, each
   * transaction on it in order, one line; the plate is flagged when it is
   * neither selected plate, and "No first" stays when the user has no
   * first-type plate.
   */
  method FlagReport(users: seq<User>, txs: seq<Transaction>) returns (output: seq<ReportRow>)
    ensures output == Report(Snapshot(users), txs)
  {
    ghost var hs := Snapshot(users);
    output := [];
    for u := 0 to |users|
      invariant output == Report(hs[..u], txs)
    {
      assert hs[..u + 1][..u] == hs[..u];
      output := UserLines(users[u], txs, output);
    }
    assert hs[..|users|] == hs;
  }

  /** The plate loop for one user: an email user's lines, plate by plate; an id user has none. */
  method UserLines(user: User, txs: seq<Transaction>, output0: seq<ReportRow>) returns (output: seq<ReportRow>)
    ensures output == output0 + (if user.email.Some? then HolderRows(HolderOf(user), user.licence, txs) else [])
  {
    output := output0;
    if user.email.Some? {
      ghost var h := HolderOf(user);
      for i := 0 to |user.licence|
        invariant output == output0 + HolderRows(h, user.licence[..i], txs)
      {
        assert user.licence[..i + 1][..i] == user.licence[..i];
        var licencePlate := user.licence[i];
        output := PlateLines(user, licencePlate, txs, output);
      }
      assert user.licence[..|user.licence|] == user.licence;
    }
  }

  /**
   * The transaction loop for one plate of an email user: a line for each
   * transaction on the plate, in order. The flag is set at the first line
   * when the plate is neither selected plate and then stays set; "No first"
   * is cleared when the user has a first-type plate.
   */
  method PlateLines(user: User, licencePlate: string, txs: seq<Transaction>, output0: seq<ReportRow>)
    returns (output: seq<ReportRow>)
    ensures output == output0 + PlateRows(HolderOf(user), licencePlate, txs)
  {
    ghost var h := HolderOf(user);
    output := output0;
    var flag := false;
    var firstFlag := true;
    for index := 0 to |txs|
      invariant flag ==> Flagged(h, licencePlate)
      invariant !firstFlag ==> user.firstOnly != []
      invariant output == output0 + PlateRows(h, licencePlate, txs[..index])
    {
      assert txs[..index + 1][..index] == txs[..index];
      if licencePlate == txs[index].plate {
        if Some(licencePlate) != user.firstLicence && Some(licencePlate) != user.additionalLicence {
          flag := true;
        }
        if |user.firstOnly| > 0 {
          firstFlag := false;
        }
        output := output + [ReportRow(user.email, txs[index].startDate, txs[index].startTime, txs[index].endDate,
                                      txs[index].endTime, txs[index].duration, licencePlate, txs[index].userId,
                                      flag, firstFlag)];
        assert output[|output| - 1] == Row(h, licencePlate, txs[index]);
      }
    }
    assert txs[..|txs|] == txs;
  }

  /**
   * Every report line belongs to an email user: it carries the user's
   * email and one of the user's plates, it is flagged exactly when that
   * plate is neither selected plate, and it says "No first" exactly when the
   * user has no first-type plate.
   */
  lemma {:induction false} ReportLinesBelong(hs: seq<Holder>, txs: seq<Transaction>)
    ensures AllReported(hs, Report(hs, txs))
  {
    if hs != [] {
      var n := |hs| - 1;
      var h := hs[n];
      ReportLinesBelong(hs[..n], txs);
      var left := Report(hs[..n], txs);
      assert AllReported(hs[..n], left);
      var right := if h.email.Some? then HolderRows(h, h.licence, txs) else [];
      HolderRowsFacts(h, h.licence, txs);
      var r := Report(hs, txs);
      assert r == left + right;
      forall q | 0 <= q < |r|
        ensures Reported(hs, r[q])
      {
        if q < |left| {
          assert Reported(hs[..n], left[q]);
          var i :| ReportedFor(hs[..n], i, left[q]);
          assert hs[..n][i] == hs[i];
          assert ReportedFor(hs, i, r[q]);
        } else {
          assert r[q] == right[q - |left|];
          assert h.email.Some?;
          assert ReportedFor(hs, n, r[q]);
        }
      }
    }
  }

  /** No line on a selected plate is flagged. */
  lemma SelectedPlateNotFlagged(h: Holder, plate: string, txs: seq<Transaction>)
    requires h.firstLicence == Some(plate) || h.additionalLicence == Some(plate)
    ensures forall q :: 0 <= q < |PlateRows(h, plate, txs)| ==> !PlateRows(h, plate, txs)[q].flagged
  {
    PlateRowsFacts(h, plate, txs);
  }
}
