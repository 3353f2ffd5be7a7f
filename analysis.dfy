/**
 * The registry pass of anallyse.py. Subscription rows become list-based
 * users held in one list, `user_list`. `add_user` finds the user already
 * listed with the same key (the email for a user with one, the id
 * otherwise) and appends the plate to it, or appends the new user. A row
 * without an email takes its id from the first transaction on its plate.
 */
module Analysis {
  import opened Wrappers
  import opened Text
  import opened Records

  /** The constructor's assertion: exactly one of email and id is present. */
  predicate OneKey(email: Option<string>, id: Option<int>)
  {
    email.None? != id.None?
  }

  /** The plates of a list, each held once. */
  predicate NoDup(plates: seq<string>)
  {
    forall i, j :: 0 <= i < j < |plates| ==> plates[i] != plates[j]
  }

  /** A plate not yet held can be appended without a duplicate. */
  lemma NoDupAppend(plates: seq<string>, p: string)
    requires NoDup(plates) && p !in plates
    ensures NoDup(plates + [p])
  {
  }

  /** The type a subscription row gives a plate. */
  datatype LicenceType = First | Additional

  class User {
    const first: Option<string>
    const last: Option<string>
    const email: Option<string>
    const number: Option<int>
    const id: Option<int>
    /** The plates in registration order. */
    var licence: seq<string>
    /** The type of the plate at the same index; None where no subscription row gave one. */
    var licenceType: seq<Option<LicenceType>>
    /** The plates split by type, in plate order. */
    var firstOnly: seq<string>
    var additionalOnly: seq<string>
    var otherLicence: seq<string>
    /** The plates selected as the user's first and additional vehicles. */
    var firstLicence: Option<string>
    var additionalLicence: Option<string>

    /** `User(first, last, email, number, licence, id)`; it asserts that exactly one key is present. */
    constructor (first: Option<string>, last: Option<string>, email: Option<string>,
                 number: Option<int>, licence: string, id: Option<int>)
      requires OneKey(email, id)
      ensures this.first == first && this.last == last && this.email == email
      ensures this.number == number && this.id == id
      ensures this.licence == [licence] && licenceType == []
      ensures firstOnly == [] && additionalOnly == [] && otherLicence == []
      ensures firstLicence.None? && additionalLicence.None?
    {
      this.first := first;
      this.last := last;
      this.email := email;
      this.number := number;
      this.id := id;
      this.licence := [licence];
      licenceType := [];
      firstOnly := [];
      additionalOnly := [];
      otherLicence := [];
      firstLicence := None;
      additionalLicence := None;
    }

    /**
     * `user == other`: between users, by email when this user has one and by
     * id (absent ids included) otherwise; against a string, by email; against
     * an int, by id.
     */
    predicate Equals(other: Operand<User>)
    {
      match other
      case AUser(u) => if email.Some? then email == u.email else id == u.id
      case AText(s) => email == Some(s)
      case ANumber(n) => id == Some(n)
      case AnotherValue => false
    }

    /** `add_licence(plate)`: the plate is appended, even when the user holds it already. */
    method AddLicence(plate: string)
      modifies this`licence
      ensures licence == old(licence) + [plate]
    {
      licence := licence + [plate];
    }
  }

  /** Whether `add_user` takes a listed user for u: by `==` when u has an email, by id otherwise. */
  predicate Matches(listed: User, u: User)
  {
    if u.email.Some? then listed.Equals(AUser(u)) else listed.id == u.id
  }

  /** Between well-keyed users, matching is having the same key, and so it is symmetric. */
  lemma MatchesIsSameKey(a: User, b: User)
    requires OneKey(a.email, a.id) && OneKey(b.email, b.id)
    ensures Matches(a, b) <==> (a.email.Some? && a.email == b.email) || (a.id.Some? && a.id == b.id)
    ensures Matches(a, b) <==> Matches(b, a)
  {
  }

  /** Every well-keyed user matches itself. */
  lemma MatchesItself(a: User)
    requires OneKey(a.email, a.id)
    ensures Matches(a, a) && a.Equals(AUser(a))
  {
  }

  /** The index of the first listed user u matches, as `add_user`'s scan finds it. */
  function FirstMatch(users: seq<User>, u: User): (r: Option<nat>)
    ensures r.Some? ==> r.value < |users| && Matches(users[r.value], u)
    ensures r.Some? ==> forall j :: 0 <= j < r.value ==> !Matches(users[j], u)
    ensures r.None? <==> forall j :: 0 <= j < |users| ==> !Matches(users[j], u)
  {
    if users == [] then None
    else if Matches(users[0], u) then Some(0)
    else match FirstMatch(users[1..], u)
      case None => None
      case Some(k) => Some(k + 1)
  }

  /** Every user is well keyed, and no two users share a key. */
  ghost predicate KeyedUsers(users: seq<User>)
  {
    && (forall i :: 0 <= i < |users| ==> OneKey(users[i].email, users[i].id))
    && (forall i, j :: 0 <= i < |users| && 0 <= j < |users| && i != j ==> !Matches(users[i], users[j]))
  }

  /** Appending a well-keyed user that no listed user matches keeps the keys apart. */
  lemma AppendKeepsKeyed(users: seq<User>, u: User)
    requires KeyedUsers(users) && OneKey(u.email, u.id) && FirstMatch(users, u).None?
    ensures KeyedUsers(users + [u])
  {
    var all := users + [u];
    forall i, j | 0 <= i < |all| && 0 <= j < |all| && i != j
      ensures !Matches(all[i], all[j])
    {
      if i < |users| && j < |users| {
        assert all[i] == users[i] && all[j] == users[j];
      } else if i < |users| {
        assert all[i] == users[i];
      } else {
        assert all[j] == users[j];
        MatchesIsSameKey(u, users[j]);
      }
    }
  }

  /**
   * What `add_user` does with u's first plate p, given the first listed user
   * matching u: when there is none, u is appended (1); when it holds p
   * already, nothing changes (-1); otherwise p is appended to its plates (0).
   * The plates of every other listed object stay as they were.
   */
  twostate predicate Added(before: seq<User>, new after: seq<User>, u: User, code: int)
    reads before, u
  {
    && |u.licence| >= 1
    && match FirstMatch(before, u)
       case None =>
         && code == 1 && after == before + [u]
         && forall j :: 0 <= j < |before| ==> before[j].licence == old(before[j].licence)
       case Some(k) =>
         && after == before
         && (if u.licence[0] in old(before[k].licence) then code == -1 && before[k].licence == old(before[k].licence)
             else code == 0 && before[k].licence == old(before[k].licence) + [u.licence[0]])
         && forall j :: 0 <= j < |before| && before[j] != before[k] ==> before[j].licence == old(before[j].licence)
  }

  class UserList {
    var users: seq<User>

    constructor ()
      ensures users == []
    {
      users := [];
    }

    ghost predicate Keyed()
      reads this
    {
      KeyedUsers(users)
    }

    /** Every listed user's plates are non-empty and held once. */
    ghost predicate Licensed()
      reads this, users
    {
      forall i :: 0 <= i < |users| ==> |users[i].licence| >= 1 && NoDup(users[i].licence)
    }

    /** What `add_user` keeps. */
    ghost predicate Valid()
      reads this, users
    {
      Keyed() && Licensed()
    }

    /** u's first plate is held by the listed user u matches. */
    predicate Registered(u: User)
      reads this, users, u
    {
      |u.licence| >= 1 && FirstMatch(users, u).Some? && u.licence[0] in users[FirstMatch(users, u).value].licence
    }

    /**
     * The scan of `add_user`: the first listed user equal to this user when
     * it has an email, or with its id otherwise.
     */
    method Find(thisUser: User) returns (found: Option<nat>)
      ensures found == FirstMatch(users, thisUser)
    {
      var i := 0;
      while i < |users|
        invariant 0 <= i <= |users|
        invariant forall j :: 0 <= j < i ==> !Matches(users[j], thisUser)
      {
        var current := users[i];
        if thisUser.email.Some? {
          if current.Equals(AUser(thisUser)) {
            return Some(i);
          }
        } else if current.id == thisUser.id {
          return Some(i);
        }
        i := i + 1;
      }
      return None;
    }

    /**
     * `add_user(user_list, this_user)` with this user's first plate. When no
     * listed user matches, this user is appended (1). When one does, the
     * first such user gets the plate appended (0), unless it holds the plate
     * already (-1, nothing changes). No other user changes, and this user's
     * own plates never do.
     */
    method AddUser(thisUser: User) returns (code: int)
      requires |thisUser.licence| >= 1
      modifies this, users`licence
      ensures Added(old(users), users, thisUser, code)
      ensures code == -1 <==> old(Registered(thisUser))
      ensures thisUser.licence == old(thisUser.licence)
      ensures Registered(thisUser)
      ensures Grown(old(users), users)
      ensures old(Licensed()) && NoDup(thisUser.licence) ==> Licensed()
    {
      var plate := thisUser.licence[0];
      var found := Find(thisUser);
      if found.Some? {
        var current := users[found.value];
        if plate in current.licence {
          return -1;
        }
        ghost var held := current.licence;
        current.AddLicence(plate);
        assert old(Licensed()) ==> Licensed() by {
          if old(Licensed()) {
            NoDupAppend(held, plate);
          }
        }
        return 0;
      }
      ghost var before := users;
      users := users + [thisUser];
      assert FirstMatch(users, thisUser) == Some(|before|) by {
        assert forall j :: 0 <= j < |before| ==> users[j] == before[j];
        assert Matches(users[|before|], thisUser);
      }
      assert old(Licensed()) && NoDup(thisUser.licence) ==> Licensed() by {
        assert forall j :: 0 <= j < |before| ==> users[j] == before[j];
      }
      return 1;
    }
  }

  /** The first transaction on plate p, compared with the row's plate as read, not stripped. */
  function FirstTransaction(txs: seq<Transaction>, p: string): (r: Option<nat>)
    ensures r.Some? ==> r.value < |txs| && txs[r.value].plate == p
    ensures r.Some? ==> forall j :: 0 <= j < r.value ==> txs[j].plate != p
    ensures r.None? <==> forall j :: 0 <= j < |txs| ==> txs[j].plate != p
  {
    if txs == [] then None
    else if txs[0].plate == p then Some(0)
    else match FirstTransaction(txs[1..], p)
      case None => None
      case Some(k) => Some(k + 1)
  }

  /** The search of an email-less row through the transactions, stopping at the first match. */
  method FindTransaction(txs: seq<Transaction>, p: string) returns (found: Option<nat>)
    ensures found == FirstTransaction(txs, p)
  {
    var index := 0;
    while index < |txs|
      invariant 0 <= index <= |txs|
      invariant forall j :: 0 <= j < index ==> txs[j].plate != p
    {
      if txs[index].plate == p {
        return Some(index);
      }
      index := index + 1;
    }
    return None;
  }

  /** A row that builds no user: it has no email and no transaction is on its plate. */
  predicate Unmatched(row: SubscriptionRow, txs: seq<Transaction>)
  {
    row.email.None? && FirstTransaction(txs, row.plate).None?
  }

  /** How the population loop ends. */
  datatype Outcome =
    | Populated
    | Unbound    // the first row built no user, so `current_user` is not yet defined (NameError)

  /** How many of the codes say a user was appended. */
  function Appended(codes: seq<int>): nat
  {
    if codes == [] then 0 else Appended(codes[..|codes| - 1]) + (if codes[|codes| - 1] == 1 then 1 else 0)
  }

  /** The key of the user a matched row builds: its stripped email, or the id of the first transaction on its plate. */
  function RowKey(row: SubscriptionRow, txs: seq<Transaction>): (key: (Option<string>, Option<int>))
    requires !Unmatched(row, txs)
    ensures OneKey(key.0, key.1)
    ensures key.0.Some? <==> row.email.Some?
  {
    if row.email.Some? then (Some(Strip(row.email.value)), None)
    else (None, Some(txs[FirstTransaction(txs, row.plate).value].userId))
  }

  /** u is the user the row builds: its names, phone and key, with the row's stripped plate first. */
  predicate BuiltFrom(u: User, row: SubscriptionRow, txs: seq<Transaction>)
    reads u
  {
    && !Unmatched(row, txs)
    && (u.email, u.id) == RowKey(row, txs)
    && u.first == row.first && u.last == row.last && u.number == row.phone
    && |u.licence| >= 1 && u.licence[0] == Strip(row.plate)
  }

  /** u has the row's key and holds the row's stripped plate. */
  predicate HeldBy(u: User, row: SubscriptionRow, txs: seq<Transaction>)
    reads u
  {
    !Unmatched(row, txs) && (u.email, u.id) == RowKey(row, txs) && Strip(row.plate) in u.licence
  }

  /** A user's key: its email and its id. */
  function KeyOf(u: User): (Option<string>, Option<int>)
  {
    (u.email, u.id)
  }

  /** The row builds a user with this key. */
  predicate KeyedRow(row: SubscriptionRow, txs: seq<Transaction>, key: (Option<string>, Option<int>))
  {
    !Unmatched(row, txs) && RowKey(row, txs) == key
  }

  /**
   * The plates `add_user` leaves with the user of this key after the first n
   * rows: the stripped plates of the rows that build a user with the key,
   * each once, in the order of the first row carrying it.
   */
  function KeyPlates(rows: seq<SubscriptionRow>, txs: seq<Transaction>, n: nat,
                     key: (Option<string>, Option<int>)): (plates: seq<string>)
    requires n <= |rows|
    ensures NoDup(plates)
  {
    if n == 0 then []
    else
      var seen := KeyPlates(rows, txs, n - 1, key);
      if KeyedRow(rows[n - 1], txs, key) && Strip(rows[n - 1].plate) !in seen then seen + [Strip(rows[n - 1].plate)]
      else seen
  }

  /** The row builds a user with this key, and its stripped plate is p. */
  predicate KeyedPlate(row: SubscriptionRow, txs: seq<Transaction>, key: (Option<string>, Option<int>), p: string)
  {
    KeyedRow(row, txs, key) && Strip(row.plate) == p
  }

  /** A plate of a key comes from one of its rows. */
  lemma {:induction false} KeyPlateRow(rows: seq<SubscriptionRow>, txs: seq<Transaction>, n: nat,
                                       key: (Option<string>, Option<int>), p: string) returns (i: nat)
    requires n <= |rows| && p in KeyPlates(rows, txs, n, key)
    ensures i < n && KeyedPlate(rows[i], txs, key, p)
  {
    var seen := KeyPlates(rows, txs, n - 1, key);
    if p in seen {
      i := KeyPlateRow(rows, txs, n - 1, key, p);
    } else {
      i := n - 1;
    }
  }

  /** Every row's stripped plate is among its key's plates from then on. */
  lemma {:induction false} RowPlateKept(rows: seq<SubscriptionRow>, txs: seq<Transaction>, n: nat,
                                        key: (Option<string>, Option<int>), p: string, i: nat)
    requires n <= |rows| && i < n && KeyedPlate(rows[i], txs, key, p)
    ensures p in KeyPlates(rows, txs, n, key)
  {
    if i < n - 1 {
      RowPlateKept(rows, txs, n - 1, key, p, i);
    }
  }

  /** A key's plates are exactly the stripped plates of its rows. */
  lemma KeyPlatesAreRowPlates(rows: seq<SubscriptionRow>, txs: seq<Transaction>, n: nat,
                              key: (Option<string>, Option<int>), p: string)
    requires n <= |rows|
    ensures p in KeyPlates(rows, txs, n, key) <==> exists i :: 0 <= i < n && KeyedPlate(rows[i], txs, key, p)
  {
    if p in KeyPlates(rows, txs, n, key) {
      var i := KeyPlateRow(rows, txs, n, key, p);
    }
    forall i | 0 <= i < n && KeyedPlate(rows[i], txs, key, p)
      ensures p in KeyPlates(rows, txs, n, key)
    {
      RowPlateKept(rows, txs, n, key, p, i);
    }
  }

  /** A key has plates exactly when one of the rows builds a user with it. */
  lemma KeyPlatesEmpty(rows: seq<SubscriptionRow>, txs: seq<Transaction>, n: nat, key: (Option<string>, Option<int>))
    requires n <= |rows|
    ensures KeyPlates(rows, txs, n, key) == [] <==> forall i :: 0 <= i < n ==> !KeyedRow(rows[i], txs, key)
  {
    var plates := KeyPlates(rows, txs, n, key);
    if plates != [] {
      KeyPlatesAreRowPlates(rows, txs, n, key, plates[0]);
    }
    forall i | 0 <= i < n && KeyedRow(rows[i], txs, key)
      ensures plates != []
    {
      KeyPlatesAreRowPlates(rows, txs, n, key, Strip(rows[i].plate));
    }
  }

  /** A row adds nothing to a key's plates unless it builds a user with the key and a plate not yet held. */
  lemma KeyPlatesStay(rows: seq<SubscriptionRow>, txs: seq<Transaction>, n: nat, key: (Option<string>, Option<int>))
    requires n < |rows|
    requires KeyedRow(rows[n], txs, key) ==> Strip(rows[n].plate) in KeyPlates(rows, txs, n, key)
    ensures KeyPlates(rows, txs, n + 1, key) == KeyPlates(rows, txs, n, key)
  {
  }

  /** A row with the key and a new plate appends its plate to the key's plates. */
  lemma KeyPlatesGrow(rows: seq<SubscriptionRow>, txs: seq<Transaction>, n: nat, key: (Option<string>, Option<int>))
    requires n < |rows| && KeyedRow(rows[n], txs, key) && Strip(rows[n].plate) !in KeyPlates(rows, txs, n, key)
    ensures KeyPlates(rows, txs, n + 1, key) == KeyPlates(rows, txs, n, key) + [Strip(rows[n].plate)]
  {
  }

  /**
   * What `add_user` returns for row n: -1 for a row that builds no user (it
   * resubmits the previous one); otherwise 1 when no earlier row built a user
   * with its key, -1 when that user holds its plate already, and 0 when not.
   */
  function RowCode(rows: seq<SubscriptionRow>, txs: seq<Transaction>, n: nat): (code: int)
    requires n < |rows|
    ensures code == 1 || code == 0 || code == -1
  {
    if Unmatched(rows[n], txs) then -1
    else
      var seen := KeyPlates(rows, txs, n, RowKey(rows[n], txs));
      if seen == [] then 1 else if Strip(rows[n].plate) in seen then -1 else 0
  }

  /**
   * A matched row gets 1 exactly when it is the first row with its key, and
   * -1 exactly when an earlier row had its key and its stripped plate.
   */
  lemma RowCodeMeans(rows: seq<SubscriptionRow>, txs: seq<Transaction>, n: nat)
    requires n < |rows| && !Unmatched(rows[n], txs)
    ensures RowCode(rows, txs, n) == 1 <==> forall i :: 0 <= i < n ==> !KeyedRow(rows[i], txs, RowKey(rows[n], txs))
    ensures RowCode(rows, txs, n) == -1 <==>
      exists i :: 0 <= i < n && KeyedPlate(rows[i], txs, RowKey(rows[n], txs), Strip(rows[n].plate))
  {
    KeyPlatesEmpty(rows, txs, n, RowKey(rows[n], txs));
    KeyPlatesAreRowPlates(rows, txs, n, RowKey(rows[n], txs), Strip(rows[n].plate));
  }

  /** Every listed user holds exactly its key's plates after the first n rows. */
  ghost predicate PlatesExact(users: seq<User>, rows: seq<SubscriptionRow>, txs: seq<Transaction>, n: nat)
    requires n <= |rows|
    reads users
  {
    forall j :: 0 <= j < |users| ==> users[j].licence == KeyPlates(rows, txs, n, KeyOf(users[j]))
  }

  /** No later pass has touched u: no plate types, no partition, no selection. */
  predicate Unsorted(u: User)
    reads u
  {
    && u.licenceType == [] && u.firstOnly == [] && u.additionalOnly == [] && u.otherLicence == []
    && u.firstLicence.None? && u.additionalLicence.None?
  }

  /** Some listed user holds the row's plate under the row's key. */
  ghost predicate Listed(users: seq<User>, row: SubscriptionRow, txs: seq<Transaction>)
    reads users
  {
    exists j :: 0 <= j < |users| && HeldBy(users[j], row, txs)
  }

  /** u was built from one of the first n rows. */
  ghost predicate FromRows(u: User, rows: seq<SubscriptionRow>, txs: seq<Transaction>, n: nat)
    requires n <= |rows|
    reads u
  {
    exists i :: 0 <= i < n && BuiltFrom(u, rows[i], txs)
  }

  /** Each matched row among the first n is held by listed user at[k]. */
  ghost predicate HeldAt(users: seq<User>, rows: seq<SubscriptionRow>, txs: seq<Transaction>, n: nat, at: seq<int>)
    reads users
  {
    && n <= |rows| && |at| == n
    && forall k {:trigger at[k]} :: 0 <= k < n && !Unmatched(rows[k], txs) ==>
         0 <= at[k] < |users| && HeldBy(users[at[k]], rows[k], txs)
  }

  /** Each listed user j was built from row from[j], one of the first n, and left unsorted. */
  ghost predicate BuiltAll(users: seq<User>, rows: seq<SubscriptionRow>, txs: seq<Transaction>, n: nat, from: seq<nat>)
    reads users
  {
    && n <= |rows| && |from| == |users|
    && forall j {:trigger from[j]} :: 0 <= j < |users| ==>
         from[j] < n && BuiltFrom(users[j], rows[from[j]], txs) && Unsorted(users[j])
  }

  /** What the population loop has done after n rows, with the witnesses at and from. */
  ghost predicate Tracked(list: UserList, rows: seq<SubscriptionRow>, txs: seq<Transaction>, n: nat,
                          at: seq<int>, from: seq<nat>)
    reads list, list.users
  {
    HeldAt(list.users, rows, txs, n, at) && BuiltAll(list.users, rows, txs, n, from) && PlatesExact(list.users, rows, txs, n)
  }

  /** The witnesses give the listed and built-from facts. */
  lemma TrackedMeans(list: UserList, rows: seq<SubscriptionRow>, txs: seq<Transaction>, n: nat,
                     at: seq<int>, from: seq<nat>)
    requires Tracked(list, rows, txs, n, at, from)
    ensures forall k :: 0 <= k < n && !Unmatched(rows[k], txs) ==> Listed(list.users, rows[k], txs)
    ensures forall j :: 0 <= j < |list.users| ==> FromRows(list.users[j], rows, txs, n) && Unsorted(list.users[j])
    ensures forall j :: 0 <= j < |list.users| ==> list.users[j].licence == KeyPlates(rows, txs, n, KeyOf(list.users[j]))
  {
    var users := list.users;
    forall k | 0 <= k < n && !Unmatched(rows[k], txs)
      ensures Listed(users, rows[k], txs)
    {
      var w := at[k];
      assert 0 <= w < |users| && HeldBy(users[w], rows[k], txs);
    }
    forall j | 0 <= j < |users|
      ensures FromRows(users[j], rows, txs, n) && Unsorted(users[j])
    {
      var r := from[j];
      assert r < n && BuiltFrom(users[j], rows[r], txs);
    }
  }

  /**
   * The listed users before stay listed in order, their plates only grow at
   * the end, and nothing else of theirs changes.
   */
  twostate predicate Grown(before: seq<User>, new after: seq<User>)
    reads before
  {
    && |before| <= |after|
    && (forall j :: 0 <= j < |before| ==> after[j] == before[j] && old(before[j].licence) <= before[j].licence)
    && (forall j :: 0 <= j < |before| ==>
          && before[j].licenceType == old(before[j].licenceType)
          && before[j].firstOnly == old(before[j].firstOnly)
          && before[j].additionalOnly == old(before[j].additionalOnly)
          && before[j].otherLicence == old(before[j].otherLicence)
          && before[j].firstLicence == old(before[j].firstLicence)
          && before[j].additionalLicence == old(before[j].additionalLicence))
  }

  /** One more row: held by user k when it builds one. */
  lemma HeldExtend(users: seq<User>, rows: seq<SubscriptionRow>, txs: seq<Transaction>, n: nat, at: seq<int>, k: int)
    requires HeldAt(users, rows, txs, n, at) && n < |rows|
    requires !Unmatched(rows[n], txs) ==> 0 <= k < |users| && HeldBy(users[k], rows[n], txs)
    ensures HeldAt(users, rows, txs, n + 1, at + [k])
  {
    assert forall j :: 0 <= j < n ==> (at + [k])[j] == at[j];
  }

  /** One more row: it may add the user built from it. */
  lemma BuiltExtend(users: seq<User>, rows: seq<SubscriptionRow>, txs: seq<Transaction>, n: nat, from: seq<nat>)
    requires BuiltAll(users, rows, txs, n, from) && n < |rows|
    ensures BuiltAll(users, rows, txs, n + 1, from)
    ensures forall u :: BuiltFrom(u, rows[n], txs) && Unsorted(u) ==> BuiltAll(users + [u], rows, txs, n + 1, from + [n])
  {
    forall j | 0 <= j < |users|
      ensures from[j] < n + 1
    {
      assert from[j] < n;
    }
    forall u | BuiltFrom(u, rows[n], txs) && Unsorted(u)
      ensures BuiltAll(users + [u], rows, txs, n + 1, from + [n])
    {
      assert forall j :: 0 <= j < |users| ==> (users + [u])[j] == users[j] && (from + [n])[j] == from[j];
    }
  }

  /**
   * The user one row leaves in `current_user`: built from the row's stripped
   * email and plate when it has an email; otherwise an id user with the id of
   * the first transaction on its plate, or the previous user when there is
   * no such transaction.
   */
  method BuildUser(row: SubscriptionRow, txs: seq<Transaction>, previous: User?) returns (current: User?)
    ensures Unmatched(row, txs) ==> current == previous
    ensures !Unmatched(row, txs) ==> current != null && fresh(current) && |current.licence| == 1
    ensures !Unmatched(row, txs) ==> OneKey(current.email, current.id) && current.licence == [Strip(row.plate)]
    ensures !Unmatched(row, txs) ==> current.first == row.first && current.last == row.last && current.number == row.phone
    ensures !Unmatched(row, txs) ==> BuiltFrom(current, row, txs) && Unsorted(current)
    ensures !Unmatched(row, txs) && row.email.Some? ==> current.email == Some(Strip(row.email.value)) && current.id.None?
    ensures !Unmatched(row, txs) && row.email.None? ==>
      current.email.None? && current.id == Some(txs[FirstTransaction(txs, row.plate).value].userId)
  {
    current := previous;
    if row.email.None? {
      var t := FindTransaction(txs, row.plate);
      if t.Some? {
        current := new User(row.first, row.last, None, row.phone, Strip(row.plate), Some(txs[t.value].userId));
      }
    } else {
      current := new User(row.first, row.last, Some(Strip(row.email.value)), row.phone, Strip(row.plate), None);
    }
  }

  /** The codes with one more at the end, the earlier ones kept. */
  function AppendCode(codes: seq<int>, code: int, ghost i: nat): (r: seq<int>)
    requires |codes| == i
    ensures |r| == i + 1 && r[i] == code && forall k :: 0 <= k < i ==> r[k] == codes[k]
    ensures Appended(r) == Appended(codes) + (if code == 1 then 1 else 0)
  {
    assert (codes + [code])[..i] == codes;
    codes + [code]
  }

  /** Every user of the list is one of the given objects. */
  ghost predicate Within(users: seq<User>, made: set<User>)
  {
    forall j :: 0 <= j < |users| ==> users[j] in made
  }

  lemma WithinAppend(users: seq<User>, u: User, made: set<User>)
    requires Within(users, made)
    ensures Within(users, made + {u}) && Within(users + [u], made + {u})
  {
  }

  /** Appending one of the given objects keeps the list within them. */
  lemma WithinAppendMember(users: seq<User>, u: User, made: set<User>)
    requires Within(users, made) && u in made
    ensures Within(users + [u], made)
  {
  }

  /** A list's plates may only grow at the end. */
  lemma PrefixKeeps(before: seq<string>, after: seq<string>)
    requires before <= after
    ensures forall p :: p in before ==> p in after
    ensures |before| >= 1 ==> after[0] == before[0]
  {
    forall p | p in before
      ensures p in after
    {
      var m :| 0 <= m < |before| && before[m] == p;
      assert after[m] == p;
    }
  }

  /**
   * `add_user` on a valid list with a user built from one row: the list
   * stays valid and the user registered, its own plates unchanged; a user
   * registered already is rejected (-1); the list grows by the user exactly
   * when it is appended (1); otherwise (0) the plate goes to the end of the
   * matched user's plates. A listed user's plates only ever grow at the end,
   * and nothing but plate lists changes.
   */
  method Submit(list: UserList, current: User) returns (code: int)
    requires list.Valid() && |current.licence| == 1 && OneKey(current.email, current.id)
    modifies list, list.users`licence
    ensures code == 1 || code == 0 || code == -1
    ensures list.Valid() && list.Registered(current) && current.licence == old(current.licence)
    ensures Added(old(list.users), list.users, current, code)
    ensures Grown(old(list.users), list.users)
  {
    ghost var before := list.users;
    code := list.AddUser(current);
    if code == 1 {
      AppendKeepsKeyed(before, current);
    }
  }

  /** The codes of the rows so far are what `add_user` returns for each. */
  ghost predicate Coded(rows: seq<SubscriptionRow>, txs: seq<Transaction>, codes: seq<int>)
  {
    |codes| <= |rows| && forall k :: 0 <= k < |codes| ==> codes[k] == RowCode(rows, txs, k)
  }

  /** One more row's code keeps the codes right. */
  lemma CodedStep(rows: seq<SubscriptionRow>, txs: seq<Transaction>, codes: seq<int>, code: int)
    requires Coded(rows, txs, codes) && |codes| < |rows|
    requires code == RowCode(rows, txs, |codes|)
    ensures Coded(rows, txs, codes + [code])
  {
    assert forall k :: 0 <= k < |codes| ==> (codes + [code])[k] == codes[k];
  }

  /**
   * After a row whose user matched listed user k: k holds its old plates, plus
   * p when it did not hold p; the other users hold their old plates. If every
   * old list was its key's plates, every list is its key's plates after the row.
   */
  lemma MatchedPlates(users: seq<User>, olds: seq<seq<string>>, rows: seq<SubscriptionRow>, txs: seq<Transaction>,
                      i: nat, k: nat, p: string)
    requires i < |rows| && |users| == |olds| && k < |users| && KeyedUsers(users)
    requires forall j :: 0 <= j < |users| ==> olds[j] == KeyPlates(rows, txs, i, KeyOf(users[j]))
    requires forall key :: KeyedRow(rows[i], txs, key) ==> key == KeyOf(users[k]) && Strip(rows[i].plate) == p
    requires KeyedRow(rows[i], txs, KeyOf(users[k])) || p in olds[k]
    requires forall j :: 0 <= j < |users| && users[j] != users[k] ==> users[j].licence == olds[j]
    requires users[k].licence == if p in olds[k] then olds[k] else olds[k] + [p]
    ensures PlatesExact(users, rows, txs, i + 1)
  {
    MatchesItself(users[k]);
    forall j | 0 <= j < |users|
      ensures users[j].licence == KeyPlates(rows, txs, i + 1, KeyOf(users[j]))
    {
      var key := KeyOf(users[j]);
      if j == k {
        if KeyedRow(rows[i], txs, key) && p !in olds[k] {
          KeyPlatesGrow(rows, txs, i, key);
        } else {
          KeyPlatesStay(rows, txs, i, key);
        }
      } else {
        MatchesIsSameKey(users[j], users[k]);
        KeyPlatesStay(rows, txs, i, key);
      }
    }
  }

  /**
   * After a row whose user matched nobody and was appended: the earlier users,
   * none with its key, hold their old plates, and it holds the row's plate.
   */
  lemma AppendedPlates(users: seq<User>, before: seq<User>, olds: seq<seq<string>>, rows: seq<SubscriptionRow>,
                       txs: seq<Transaction>, i: nat, u: User)
    requires i < |rows| && users == before + [u] && |olds| == |before|
    requires forall j :: 0 <= j < |olds| ==> olds[j] == KeyPlates(rows, txs, i, KeyOf(before[j]))
    requires forall j :: 0 <= j < |olds| ==> before[j].licence == olds[j]
    requires KeyedUsers(before) && OneKey(u.email, u.id) && FirstMatch(before, u).None?
    requires KeyedRow(rows[i], txs, KeyOf(u)) && u.licence == [Strip(rows[i].plate)]
    requires KeyPlates(rows, txs, i, KeyOf(u)) == []
    ensures PlatesExact(users, rows, txs, i + 1)
  {
    forall j | 0 <= j < |users|
      ensures users[j].licence == KeyPlates(rows, txs, i + 1, KeyOf(users[j]))
    {
      if j < |olds| {
        assert users[j] == before[j];
        MatchesIsSameKey(before[j], u);
        KeyPlatesStay(rows, txs, i, KeyOf(before[j]));
      } else {
        KeyPlatesGrow(rows, txs, i, KeyOf(u));
      }
    }
  }

  /**
   * The code `add_user` returns for row i's user, read off the listed users:
   * 1 when none matches it, and then no earlier row had its key; otherwise -1
   * or 0 as the first match holds its plate or not.
   */
  lemma ExpectedCode(users: seq<User>, rows: seq<SubscriptionRow>, txs: seq<Transaction>, i: nat, u: User)
    requires i < |rows| && KeyedUsers(users) && PlatesExact(users, rows, txs, i)
    requires FirstMatch(users, u).None? ==> KeyPlates(rows, txs, i, KeyOf(u)) == []
    requires forall j :: 0 <= j < |users| ==> |users[j].licence| >= 1
    requires |u.licence| == 1 && OneKey(u.email, u.id)
    requires !Unmatched(rows[i], txs) ==> KeyOf(u) == RowKey(rows[i], txs) && u.licence[0] == Strip(rows[i].plate)
    requires Unmatched(rows[i], txs) ==> FirstMatch(users, u).Some? && u.licence[0] in users[FirstMatch(users, u).value].licence
    ensures FirstMatch(users, u).None? ==> RowCode(rows, txs, i) == 1
    ensures FirstMatch(users, u).Some? ==>
      var k := FirstMatch(users, u).value;
      KeyOf(users[k]) == KeyOf(u) && RowCode(rows, txs, i) == if u.licence[0] in users[k].licence then -1 else 0
  {
    if FirstMatch(users, u).Some? {
      MatchesIsSameKey(users[FirstMatch(users, u).value], u);
    }
  }

  /**
   * `add_user` on row i's user: `Submit`, with the code `RowCode` gives for
   * the row, and every listed user left holding exactly its key's plates
   * after the row.
   */
  method SubmitRow(list: UserList, current: User, rows: seq<SubscriptionRow>, txs: seq<Transaction>, i: nat)
    returns (code: int)
    requires i < |rows| && list.Valid() && PlatesExact(list.users, rows, txs, i)
    requires FirstMatch(list.users, current).None? ==> KeyPlates(rows, txs, i, KeyOf(current)) == []
    requires |current.licence| == 1 && OneKey(current.email, current.id)
    requires !Unmatched(rows[i], txs) ==> KeyOf(current) == RowKey(rows[i], txs) && current.licence[0] == Strip(rows[i].plate)
    requires Unmatched(rows[i], txs) ==> list.Registered(current)
    modifies list, list.users`licence
    ensures code == RowCode(rows, txs, i)
    ensures list.Valid() && list.Registered(current) && current.licence == old(current.licence)
    ensures (code == 1 && list.users == old(list.users) + [current]) || (code != 1 && list.users == old(list.users))
    ensures Grown(old(list.users), list.users)
    ensures PlatesExact(list.users, rows, txs, i + 1)
  {
    ghost var before := list.users;
    ghost var m := FirstMatch(before, current);
    ghost var olds := seq(|before|, j requires 0 <= j < |before| reads before => before[j].licence);
    ExpectedCode(before, rows, txs, i, current);
    code := Submit(list, current);
    if m.None? {
      AppendedPlates(list.users, before, olds, rows, txs, i, current);
    } else {
      MatchedPlates(list.users, olds, rows, txs, i, m.value, current.licence[0]);
    }
  }

  /**
   * `add_user` inside the population loop: `Submit`, with the witnesses of
   * the rows so far still valid for the listed users.
   */
  method Resubmit(list: UserList, current: User, rows: seq<SubscriptionRow>, txs: seq<Transaction>, n: nat,
                  ghost at: seq<int>, ghost from: seq<nat>) returns (code: int)
    requires list.Valid() && |current.licence| == 1 && OneKey(current.email, current.id)
    requires n < |rows| && Tracked(list, rows, txs, n, at, from)
    requires !Unmatched(rows[n], txs) ==> KeyOf(current) == RowKey(rows[n], txs) && current.licence[0] == Strip(rows[n].plate)
    requires Unmatched(rows[n], txs) ==> list.Registered(current)
    modifies list, list.users`licence
    ensures code == RowCode(rows, txs, n)
    ensures list.Valid() && list.Registered(current) && current.licence == old(current.licence)
    ensures (code == 1 && list.users == old(list.users) + [current]) || (code != 1 && list.users == old(list.users))
    ensures HeldAt(list.users, rows, txs, n, at) && BuiltAll(old(list.users), rows, txs, n, from)
    ensures PlatesExact(list.users, rows, txs, n + 1)
  {
    ghost var before := list.users;
    if FirstMatch(list.users, current).None? {
      UnseenKey(list.users, rows, txs, n, at, current);
    }
    code := SubmitRow(list, current, rows, txs, n);
    forall k | 0 <= k < n && !Unmatched(rows[k], txs)
      ensures HeldBy(list.users[at[k]], rows[k], txs)
    {
      var u := before[at[k]];
      assert old(HeldBy(u, rows[k], txs));
      PrefixKeeps(old(u.licence), u.licence);
    }
    forall j | 0 <= j < |before|
      ensures BuiltFrom(before[j], rows[from[j]], txs) && Unsorted(before[j])
    {
      assert old(BuiltFrom(before[j], rows[from[j]], txs)) && old(Unsorted(before[j]));
      PrefixKeeps(old(before[j].licence), before[j].licence);
    }
  }

  /** When no listed user matches u, no row so far built a user with u's key. */
  lemma UnseenKey(users: seq<User>, rows: seq<SubscriptionRow>, txs: seq<Transaction>, n: nat, at: seq<int>, u: User)
    requires HeldAt(users, rows, txs, n, at) && KeyedUsers(users) && OneKey(u.email, u.id)
    requires FirstMatch(users, u).None?
    ensures KeyPlates(rows, txs, n, KeyOf(u)) == []
  {
    forall r | 0 <= r < n
      ensures !KeyedRow(rows[r], txs, KeyOf(u))
    {
      if !Unmatched(rows[r], txs) {
        MatchesIsSameKey(users[at[r]], u);
      }
    }
    KeyPlatesEmpty(rows, txs, n, KeyOf(u));
  }

  /**
   * One turn of the population loop, after the row's user is built: a matched
   * row's user is submitted; an unmatched row resubmits the previous user,
   * which is registered already and so rejected (-1). The witnesses are
   * extended by the row: the listed user holding its plate, and the row as
   * the origin of an appended user.
   */
  method AddRow(list: UserList, rows: seq<SubscriptionRow>, txs: seq<Transaction>, i: nat,
                current: User, ghost at: seq<int>, ghost from: seq<nat>)
    returns (code: int, ghost at': seq<int>, ghost from': seq<nat>)
    requires i < |rows| && list.Valid() && Tracked(list, rows, txs, i, at, from)
    requires |current.licence| == 1 && OneKey(current.email, current.id)
    requires !Unmatched(rows[i], txs) ==> BuiltFrom(current, rows[i], txs) && Unsorted(current)
    requires Unmatched(rows[i], txs) ==> list.Registered(current)
    modifies list, list.users`licence
    ensures code == RowCode(rows, txs, i)
    ensures list.Valid() && list.Registered(current) && current.licence == old(current.licence)
    ensures (code == 1 && list.users == old(list.users) + [current]) || (code != 1 && list.users == old(list.users))
    ensures Tracked(list, rows, txs, i + 1, at', from')
  {
    ghost var before := list.users;
    code := Resubmit(list, current, rows, txs, i, at, from);
    var k := -1;
    if !Unmatched(rows[i], txs) {
      k := FirstMatch(list.users, current).value;
      MatchesIsSameKey(list.users[k], current);
    }
    HeldExtend(list.users, rows, txs, i, at, k);
    at' := at + [k];
    BuiltExtend(before, rows, txs, i, from);
    from' := if code == 1 then from + [i] else from;
  }

  /**
   * One row of the population loop: build the row's user, or keep the
   * previous one, and submit it. Only when the first row builds no user is
   * nothing submitted.
   */
  method PopulateRow(list: UserList, rows: seq<SubscriptionRow>, txs: seq<Transaction>, i: nat, previous: User?,
                     codes: seq<int>, ghost at: seq<int>, ghost from: seq<nat>, ghost made: set<User>)
    returns (current: User?, codes': seq<int>, ghost at': seq<int>, ghost from': seq<nat>, ghost made': set<User>)
    requires i < |rows| && list.Valid() && Tracked(list, rows, txs, i, at, from)
    requires |codes| == i && Coded(rows, txs, codes) && |list.users| == Appended(codes)
    requires (previous == null) == (i == 0)
    requires previous != null ==> |previous.licence| == 1 && OneKey(previous.email, previous.id) && list.Registered(previous)
    requires Within(list.users, made) && (previous != null ==> previous in made)
    modifies list, list.users`licence
    ensures current == null <==> i == 0 && Unmatched(rows[0], txs)
    ensures current == null ==> list.users == old(list.users) && codes' == codes
    ensures Within(list.users, made') && (current != null ==> current in made') && fresh(made' - made)
    ensures current != null ==> |current.licence| == 1 && OneKey(current.email, current.id) && list.Registered(current)
    ensures current != null ==> |codes'| == i + 1 && Coded(rows, txs, codes') && |list.users| == Appended(codes')
    ensures list.Valid() && (current != null ==> Tracked(list, rows, txs, i + 1, at', from'))
  {
    current := BuildUser(rows[i], txs, previous);
    if current == null {
      return current, codes, at, from, made;
    }
    made' := made;
    if current != previous {
      WithinAppend(list.users, current, made);
      made' := made + {current};
    }
    WithinAppendMember(list.users, current, made');
    var code;
    code, at', from' := AddRow(list, rows, txs, i, current, at, from);
    CodedStep(rows, txs, codes, code);
    codes' := AppendCode(codes, code, i);
  }

  /**
   * The population loop: a row with an email builds a user from its stripped
   * email and plate; a row without one builds an id user from the first
   * transaction on its plate, or, when there is none, leaves the previous
   * row's user in place, which `add_user` then sees again and rejects (-1).
   * Only when the very first row builds no user does the loop stop. The codes
   * are what `add_user` returned for each row; as many users are listed as
   * codes say were appended, and the list stays valid.
   */
  method PopulateUsers(rows: seq<SubscriptionRow>, txs: seq<Transaction>) returns (list: UserList, outcome: Outcome, codes: seq<int>)
    ensures fresh(list) && list.Valid()
    ensures outcome == Unbound <==> |rows| > 0 && Unmatched(rows[0], txs)
    ensures outcome == Unbound ==> codes == [] && list.users == []
    ensures outcome == Populated ==> |codes| == |rows|
    ensures Coded(rows, txs, codes) && |list.users| == Appended(codes)
    ensures forall i :: 0 <= i < |codes| && !Unmatched(rows[i], txs) ==> Listed(list.users, rows[i], txs)
    ensures forall j :: 0 <= j < |list.users| ==> FromRows(list.users[j], rows, txs, |codes|) && Unsorted(list.users[j])
    ensures forall j :: 0 <= j < |list.users| ==> list.users[j].licence == KeyPlates(rows, txs, |codes|, KeyOf(list.users[j]))
  {
    list := new UserList();
    codes := [];
    var current: User? := null;
    ghost var made: set<User> := {};
    ghost var at: seq<int> := [];
    ghost var from: seq<nat> := [];
    var i := 0;
    while i < |rows|
      invariant 0 <= i <= |rows| && |codes| == i
      invariant fresh(list) && list.Valid()
      invariant Within(list.users, made) && fresh(made)
      invariant (current == null) == (i == 0)
      invariant current != null ==> current in made && |current.licence| == 1 && OneKey(current.email, current.id)
      invariant current != null ==> list.Registered(current)
      invariant i > 0 ==> !Unmatched(rows[0], txs)
      invariant Coded(rows, txs, codes)
      invariant |list.users| == Appended(codes)
      invariant Tracked(list, rows, txs, i, at, from)
    {
      current, codes, at, from, made := PopulateRow(list, rows, txs, i, current, codes, at, from, made);
      if current == null {
        return list, Unbound, codes;
      }
      i := i + 1;
    }
    TrackedMeans(list, rows, txs, i, at, from);
    return list, Populated, codes;
  }
}
