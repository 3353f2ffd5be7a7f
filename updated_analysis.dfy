/**
 * The registry pass of updated_anallyse.py. Subscription rows become users
 * held in three dictionaries: `email_list` (email to user), `id_list` (plate
 * to user, for users without an email) and `plate_list` (plate to every user
 * object registered with it, in registration order). A later pass over the
 * transactions copies the "User Id" of every transaction whose plate is a key
 * of `id_list` onto that user.
 */
module UpdatedAnalysis {
  import opened Wrappers
  import opened Text
  import opened Records

  /** The constructor's assertion: exactly one of email and id is present. */
  predicate OneKey(email: Option<string>, id: Option<int>)
  {
    email.None? != id.None?
  }

  class User {
    const first: Option<string>
    const last: Option<string>
    const email: Option<string>
    const number: Option<int>
    /** The plates of the user; a set, so adding a held plate changes nothing. */
    var licence: set<string>
    /** None until the transaction pass finds the user's id. */
    var id: Option<int>

    /** `User(first, last, email, number, licence, id_num)`; it asserts that exactly one key is present. */
    constructor (first: Option<string>, last: Option<string>, email: Option<string>,
                 number: Option<int>, licence: string, id: Option<int>)
      requires OneKey(email, id)
      ensures this.first == first && this.last == last && this.email == email
      ensures this.number == number && this.id == id && this.licence == {licence}
      ensures Len() == 1
    {
      this.first := first;
      this.last := last;
      this.email := email;
      this.number := number;
      this.licence := {licence};
      this.id := id;
    }

    /**
     * The user an email-less row is evidently meant to become: no names, no
     * email and, until the transaction pass finds it, no id; it is keyed by
     * its plate in `id_list`.
     */
    constructor PlateKeyed(licence: string)
      ensures first.None? && last.None? && email.None? && number.None? && id.None?
      ensures this.licence == {licence}
      ensures Len() == 1
    {
      first := None;
      last := None;
      email := None;
      number := None;
      this.licence := {licence};
      id := None;
    }

    /** `len(user)`: the number of distinct plates. */
    function Len(): nat
      reads this`licence
    {
      |licence|
    }

    /** `add_licence(plate)`: the plate joins the set, and holding it already changes nothing. */
    method AddLicence(plate: string)
      modifies this`licence
      ensures licence == old(licence) + {plate} && plate in licence
      ensures plate in old(licence) ==> licence == old(licence)
      ensures Len() == old(Len()) + (if plate in old(licence) then 0 else 1)
    {
      licence := licence + {plate};
    }

    /**
     * `user == other`: between users, by email when this user has one and by
     * id (absent ids included) otherwise; against a string, by email; against
     * an int, by id.
     */
    predicate Equals(other: Operand<User>)
      reads this, if other.AUser? then {other.user} else {}
    {
      match other
      case AUser(u) => if email.Some? then email == u.email else id == u.id
      case AText(s) => email == Some(s)
      case ANumber(n) => id == Some(n)
      case AnotherValue => false
    }
  }

  /** Unlike User.py, this equality is not symmetric: only the left user's email decides. */
  lemma EqualsAsymmetric(a: User, b: User)
    requires a.email.Some? && b.email.None? && a.id == b.id
    ensures b.Equals(AUser(a)) && !a.Equals(AUser(b))
  {
  }

  /** Two users without email and without id are equal, because `None == None`. */
  lemma KeylessUsersEqual(a: User, b: User)
    requires a.email.None? && a.id.None? && b.id.None?
    ensures a.Equals(AUser(b))
  {
  }

  /** What a run of the registration loop ends with. */
  datatype RunOutcome =
    | Completed
    | KeyAssertion(row: nat)      // the constructor's assertion failed on this row
    | PlateAssertion(row: nat)    // `add_users` rejected this row's plate

  /** The number of rows processed before the run stopped. */
  function RowsDone(outcome: RunOutcome, total: nat): nat
  {
    match outcome
    case Completed => total
    case KeyAssertion(k) => k
    case PlateAssertion(k) => k
  }

  /** The plate of a row as the loop reads it: stripped. */
  function PlateOf(row: SubscriptionRow): string
  {
    Strip(row.plate)
  }

  /** The number of rows whose stripped plate is p. */
  function PlateCount(rows: seq<SubscriptionRow>, p: string): nat
  {
    if rows == [] then 0
    else PlateCount(rows[..|rows| - 1], p) + (if PlateOf(rows[|rows| - 1]) == p then 1 else 0)
  }

  lemma PlateCountStep(rows: seq<SubscriptionRow>, i: nat)
    requires i < |rows|
    ensures forall p :: PlateCount(rows[..i + 1], p) == PlateCount(rows[..i], p) + (if PlateOf(rows[i]) == p then 1 else 0)
  {
    assert rows[..i + 1][..i] == rows[..i];
  }

  /** Where the loop as written stops: the first email-less row or the first bad plate. */
  function StopAsWritten(rows: seq<SubscriptionRow>, i: nat): (r: RunOutcome)
    requires i <= |rows|
    ensures r.KeyAssertion? ==> i <= r.row < |rows| && rows[r.row].email.None?
    ensures r.PlateAssertion? ==> i <= r.row < |rows| && |PlateOf(rows[r.row])| != 6
    ensures forall j :: i <= j < RowsDone(r, |rows|) ==> rows[j].email.Some? && |PlateOf(rows[j])| == 6
    decreases |rows| - i
  {
    if i == |rows| then Completed
    else if rows[i].email.None? then KeyAssertion(i)
    else if |PlateOf(rows[i])| != 6 then PlateAssertion(i)
    else StopAsWritten(rows, i + 1)
  }

  /** Where the corrected loop stops: the first bad plate. */
  function Stop(rows: seq<SubscriptionRow>, i: nat): (r: RunOutcome)
    requires i <= |rows|
    ensures !r.KeyAssertion?
    ensures r.PlateAssertion? ==> i <= r.row < |rows| && |PlateOf(rows[r.row])| != 6
    ensures forall j :: i <= j < RowsDone(r, |rows|) ==> |PlateOf(rows[j])| == 6
    decreases |rows| - i
  {
    if i == |rows| then Completed
    else if |PlateOf(rows[i])| != 6 then PlateAssertion(i)
    else Stop(rows, i + 1)
  }

  /** One step of the run as written, for the loop that follows it row by row. */
  lemma StopAsWrittenStep(rows: seq<SubscriptionRow>, i: nat, plate: string)
    requires i < |rows| && plate == PlateOf(rows[i])
    ensures rows[i].email.None? ==> StopAsWritten(rows, i) == KeyAssertion(i)
    ensures rows[i].email.Some? && |plate| != 6 ==> StopAsWritten(rows, i) == PlateAssertion(i)
    ensures rows[i].email.Some? && |plate| == 6 ==> StopAsWritten(rows, i) == StopAsWritten(rows, i + 1)
  {
  }

  /** One step of the corrected run. */
  lemma StopStep(rows: seq<SubscriptionRow>, i: nat, plate: string)
    requires i < |rows| && plate == PlateOf(rows[i])
    ensures |plate| != 6 ==> Stop(rows, i) == PlateAssertion(i)
    ensures |plate| == 6 ==> Stop(rows, i) == Stop(rows, i + 1)
  {
  }

  /** The last "User Id" among the transactions on one of the plates, or d when there is none. */
  function LastId(txs: seq<Transaction>, plates: set<string>, d: Option<int>): Option<int>
  {
    if txs == [] then d
    else if txs[|txs| - 1].plate in plates then Some(txs[|txs| - 1].userId)
    else LastId(txs[..|txs| - 1], plates, d)
  }

  /** The number of transactions whose plate is one of the keys. */
  function MatchCount(txs: seq<Transaction>, keys: set<string>): nat
  {
    if txs == [] then 0
    else MatchCount(txs[..|txs| - 1], keys) + (if txs[|txs| - 1].plate in keys then 1 else 0)
  }

  /** Each key of `email_list` holds a user with that email. */
  predicate EmailKeyed(emails: map<string, User>)
  {
    forall e :: e in emails ==> emails[e].email == Some(e)
  }

  /** Each key of `id_list` holds an email-less user. */
  predicate IdKeyed(ids: map<string, User>)
  {
    forall p :: p in ids ==> ids[p].email.None?
  }

  /** With no transaction on the plates, LastId keeps the id it started from. */
  lemma {:induction false} LastIdNoMatch(txs: seq<Transaction>, plates: set<string>, d: Option<int>)
    requires forall k :: 0 <= k < |txs| ==> txs[k].plate !in plates
    ensures LastId(txs, plates, d) == d
  {
    if txs != [] {
      LastIdNoMatch(txs[..|txs| - 1], plates, d);
    }
  }

  /** The id LastId picks is the one of the last transaction on the plates. */
  lemma {:induction false} LastIdIsLastMatch(txs: seq<Transaction>, plates: set<string>, d: Option<int>, k: nat)
    requires k < |txs| && txs[k].plate in plates
    requires forall m :: k < m < |txs| ==> txs[m].plate !in plates
    ensures LastId(txs, plates, d) == Some(txs[k].userId)
  {
    var n := |txs| - 1;
    if k < n {
      var init := txs[..n];
      assert init[k] == txs[k];
      LastIdIsLastMatch(init, plates, d, k);
    }
  }

  /** The indices of the transactions whose plate is one of the keys. */
  function MatchingIndices(txs: seq<Transaction>, keys: set<string>): (r: set<nat>)
    ensures forall k: nat :: k in r <==> k < |txs| && txs[k].plate in keys
  {
    set k: nat | k < |txs| && txs[k].plate in keys
  }

  /** The back-fill counter counts matching transactions: two transactions on one user's plate count twice. */
  lemma {:induction false} MatchCountIsMatchingTransactions(txs: seq<Transaction>, keys: set<string>)
    ensures MatchCount(txs, keys) == |MatchingIndices(txs, keys)|
  {
    if txs != [] {
      var n := |txs| - 1;
      var init := txs[..n];
      MatchCountIsMatchingTransactions(init, keys);
      assert forall k :: 0 <= k < n ==> init[k] == txs[k];
      if txs[n].plate in keys {
        assert MatchingIndices(txs, keys) == MatchingIndices(init, keys) + {n};
      } else {
        assert MatchingIndices(txs, keys) == MatchingIndices(init, keys);
      }
    }
  }

  /** A run with every plate six characters long completes, from any row on. */
  lemma {:induction false} StopCompletes(rows: seq<SubscriptionRow>, i: nat)
    requires i <= |rows|
    requires forall j :: i <= j < |rows| ==> |PlateOf(rows[j])| == 6
    ensures Stop(rows, i) == Completed
    decreases |rows| - i
  {
    if i < |rows| {
      StopCompletes(rows, i + 1);
    }
  }

  /**
   * The run as written never passes an email-less row, while the corrected
   * run registers every row when all plates are six characters long.
   */
  lemma EmailLessRowStopsRun(rows: seq<SubscriptionRow>, j: nat)
    requires j < |rows| && rows[j].email.None?
    requires forall k :: 0 <= k < |rows| ==> |PlateOf(rows[k])| == 6
    ensures RowsDone(StopAsWritten(rows, 0), |rows|) <= j < |rows|
    ensures Stop(rows, 0) == Completed
  {
    StopCompletes(rows, 0);
  }

  /**
   * What every registration keeps in the three dictionaries: each email key
   * holds a user with that email, each plate key of `id_list` an email-less
   * user, every listed plate has six characters and at least one user, and
   * every user in `plate_list` is reachable through the dictionary its key
   * selects.
   */
  ghost predicate Keyed(emails: map<string, User>, ids: map<string, User>, plates: map<string, seq<User>>)
  {
    && EmailKeyed(emails) && IdKeyed(ids)
    && (forall p :: p in ids ==> p in plates)
    && (forall p :: p in plates ==> |p| == 6 && |plates[p]| >= 1)
    && (forall p, u :: p in plates && u in plates[p] ==>
          (u.email.Some? ==> u.email.value in emails) && (u.email.None? ==> p in ids))
  }

  /** `email_list` after a registration: a new email gains the user, a known one keeps its user. */
  function EmailsAfter(emails: map<string, User>, user: User): map<string, User>
  {
    if user.email.Some? && user.email.value !in emails then emails[user.email.value := user] else emails
  }

  /** `id_list` after a registration: only an email-less user under a new plate is added. */
  function IdsAfter(ids: map<string, User>, user: User, plate: string): map<string, User>
  {
    if user.email.None? && plate !in ids then ids[plate := user] else ids
  }

  /** `plate_list` after a registration: the user passed in is appended under the plate. */
  function PlatesAfter(plates: map<string, seq<User>>, user: User, plate: string): map<string, seq<User>>
  {
    plates[plate := (if plate in plates then plates[plate] else []) + [user]]
  }

  /** A registration puts no user into `email_list` or `id_list` other than the one passed in. */
  /**
   * The plates the user under email e holds after `add_users(user, plate)`,
   * read in the state before it: a new key holds the passed user's plates,
   * the passed user's own email gains the plate, and every other key keeps
   * its plates.
   */
  ghost function EmailLicenceAfter(emails: map<string, User>, user: User, plate: string, e: string): set<string>
    reads emails.Values, user
  {
    if e !in emails then user.licence
    else if user.email == Some(e) then emails[e].licence + {plate}
    else emails[e].licence
  }

  /**
   * The plates the user under plate p of `id_list` holds after
   * `add_users(user, plate)`, read in the state before it: a new key holds
   * the passed user's plates, and for an email-less user the object already
   * under the plate gains it, under every key that object is filed.
   */
  ghost function IdLicenceAfter(ids: map<string, User>, user: User, plate: string, p: string): set<string>
    reads ids.Values, user
  {
    if p !in ids then user.licence
    else if user.email.None? && plate in ids && ids[p] == ids[plate] then ids[p].licence + {plate}
    else ids[p].licence
  }

  lemma AfterValues(emails: map<string, User>, ids: map<string, User>, user: User, plate: string)
    ensures EmailsAfter(emails, user).Values <= emails.Values + {user}
    ensures IdsAfter(ids, user, plate).Values <= ids.Values + {user}
  {
  }

  /** A registration with a six-character plate keeps the dictionaries keyed. */
  lemma RegistrationKeepsKeyed(emails: map<string, User>, ids: map<string, User>,
                               plates: map<string, seq<User>>, user: User, plate: string)
    requires Keyed(emails, ids, plates) && |plate| == 6
    ensures Keyed(EmailsAfter(emails, user), IdsAfter(ids, user, plate), PlatesAfter(plates, user, plate))
  {
    var plates' := PlatesAfter(plates, user, plate);
    forall p: string, u: User | p in plates' && u in plates'[p]
      ensures (u.email.Some? ==> u.email.value in EmailsAfter(emails, user))
      ensures (u.email.None? ==> p in IdsAfter(ids, user, plate))
    {
      if p == plate && (p !in plates || u !in plates[p]) {
        assert u == user;
      }
    }
  }

  /** Each plate's list in `plate_list` has one entry per row with that plate, and no other plate is listed. */
  ghost predicate PlatesCounted(plates: map<string, seq<User>>, rows: seq<SubscriptionRow>)
  {
    && (forall p :: p in plates <==> PlateCount(rows, p) > 0)
    && (forall p :: p in plates ==> |plates[p]| == PlateCount(rows, p))
  }

  /** The emails of the rows that have one: the keys `email_list` should end with. */
  function EmailsOf(rows: seq<SubscriptionRow>): set<string>
  {
    if rows == [] then {}
    else EmailsOf(rows[..|rows| - 1]) + (if rows[|rows| - 1].email.Some? then {rows[|rows| - 1].email.value} else {})
  }

  /** The stripped plates of the email-less rows: the keys `id_list` should end with. */
  function IdPlatesOf(rows: seq<SubscriptionRow>): set<string>
  {
    if rows == [] then {}
    else IdPlatesOf(rows[..|rows| - 1]) + (if rows[|rows| - 1].email.None? then {PlateOf(rows[|rows| - 1])} else {})
  }

  /** EmailsOf holds exactly the emails some row carries. */
  lemma {:induction false} EmailsOfIsRowEmails(rows: seq<SubscriptionRow>, e: string)
    ensures e in EmailsOf(rows) <==> exists j :: 0 <= j < |rows| && rows[j].email == Some(e)
  {
    if rows != [] {
      var init := rows[..|rows| - 1];
      EmailsOfIsRowEmails(init, e);
      assert forall j :: 0 <= j < |init| ==> init[j] == rows[j];
      if e in EmailsOf(init) {
        var j :| 0 <= j < |init| && init[j].email == Some(e);
        assert rows[j].email == Some(e);
      }
    }
  }

  /** IdPlatesOf holds exactly the stripped plates of the email-less rows. */
  lemma {:induction false} IdPlatesOfIsEmailLessPlates(rows: seq<SubscriptionRow>, p: string)
    ensures p in IdPlatesOf(rows) <==> exists j :: 0 <= j < |rows| && rows[j].email.None? && PlateOf(rows[j]) == p
  {
    if rows != [] {
      var init := rows[..|rows| - 1];
      IdPlatesOfIsEmailLessPlates(init, p);
      assert forall j :: 0 <= j < |init| ==> init[j] == rows[j];
      if p in IdPlatesOf(init) {
        var j :| 0 <= j < |init| && init[j].email.None? && PlateOf(init[j]) == p;
        assert rows[j].email.None? && PlateOf(rows[j]) == p;
      }
    }
  }

  /** The stripped plates of the rows with email e: the plate set the user under e should end with. */
  function EmailPlates(rows: seq<SubscriptionRow>, e: string): set<string>
  {
    if rows == [] then {}
    else EmailPlates(rows[..|rows| - 1], e) + (if rows[|rows| - 1].email == Some(e) then {PlateOf(rows[|rows| - 1])} else {})
  }

  /** EmailPlates holds exactly the stripped plates of the rows with that email. */
  lemma {:induction false} EmailPlatesAreRowPlates(rows: seq<SubscriptionRow>, e: string, p: string)
    ensures p in EmailPlates(rows, e) <==> exists j :: 0 <= j < |rows| && rows[j].email == Some(e) && PlateOf(rows[j]) == p
  {
    if rows != [] {
      var init := rows[..|rows| - 1];
      EmailPlatesAreRowPlates(init, e, p);
      assert forall j :: 0 <= j < |init| ==> init[j] == rows[j];
      if p in EmailPlates(init, e) {
        var j :| 0 <= j < |init| && init[j].email == Some(e) && PlateOf(init[j]) == p;
        assert rows[j].email == Some(e) && PlateOf(rows[j]) == p;
      }
    }
  }

  /** An email no row carries has no plates. */
  lemma {:induction false} EmailPlatesOfAbsent(rows: seq<SubscriptionRow>, e: string)
    requires e !in EmailsOf(rows)
    ensures EmailPlates(rows, e) == {}
  {
    if rows != [] {
      EmailPlatesOfAbsent(rows[..|rows| - 1], e);
    }
  }

  /** Row i adds its plate to the plates of its own email only. */
  lemma EmailPlatesStep(rows: seq<SubscriptionRow>, i: nat)
    requires i < |rows|
    ensures forall e ::
      EmailPlates(rows[..i + 1], e) == EmailPlates(rows[..i], e) + (if rows[i].email == Some(e) then {PlateOf(rows[i])} else {})
  {
    assert rows[..i + 1][..i] == rows[..i];
  }

  /** The keys of `email_list` are exactly the rows' emails, and those of `id_list` exactly the email-less rows' plates. */
  ghost predicate KeysFromRows(emails: map<string, User>, ids: map<string, User>, rows: seq<SubscriptionRow>)
  {
    emails.Keys == EmailsOf(rows) && ids.Keys == IdPlatesOf(rows)
  }

  /** The rows a registry holds, as far as the dictionaries' keys and lengths tell. */
  ghost predicate ListsRows(emails: map<string, User>, ids: map<string, User>, plates: map<string, seq<User>>,
                            rows: seq<SubscriptionRow>)
  {
    PlatesCounted(plates, rows) && KeysFromRows(emails, ids, rows)
  }

  /** Appending row i's user under its plate counts row i. */
  lemma PlatesCountedStep(plates: map<string, seq<User>>, rows: seq<SubscriptionRow>, i: nat, user: User)
    requires i < |rows| && PlatesCounted(plates, rows[..i])
    ensures PlatesCounted(PlatesAfter(plates, user, PlateOf(rows[i])), rows[..i + 1])
  {
    PlateCountStep(rows, i);
  }

  /** Registering row i's user adds row i's key to the dictionary it selects, and no other key. */
  lemma KeysFromRowsStep(emails: map<string, User>, ids: map<string, User>,
                         rows: seq<SubscriptionRow>, i: nat, user: User)
    requires i < |rows| && KeysFromRows(emails, ids, rows[..i]) && user.email == rows[i].email
    ensures KeysFromRows(EmailsAfter(emails, user), IdsAfter(ids, user, PlateOf(rows[i])), rows[..i + 1])
  {
    assert rows[..i + 1][..i] == rows[..i];
  }

  /** Registering the next row's user extends what the dictionaries list by that row. */
  lemma RegistrationListsRow(emails: map<string, User>, ids: map<string, User>, plates: map<string, seq<User>>,
                             rows: seq<SubscriptionRow>, i: nat, user: User)
    requires i < |rows| && ListsRows(emails, ids, plates, rows[..i]) && user.email == rows[i].email
    ensures ListsRows(EmailsAfter(emails, user), IdsAfter(ids, user, PlateOf(rows[i])),
                      PlatesAfter(plates, user, PlateOf(rows[i])), rows[..i + 1])
  {
    PlatesCountedStep(plates, rows, i, user);
    KeysFromRowsStep(emails, ids, rows, i, user);
  }

  class Registry {
    var emailList: map<string, User>
    var idList: map<string, User>
    var plateList: map<string, seq<User>>

    constructor ()
      ensures emailList == map[] && idList == map[] && plateList == map[]
      ensures Valid()
    {
      emailList := map[];
      idList := map[];
      plateList := map[];
    }

    ghost predicate Valid()
      reads this
    {
      Keyed(emailList, idList, plateList)
    }

    /** The already-registered user a registration of (user, plate) merges into, if any. */
    function Target(user: User, plate: string): Option<User>
      reads this
    {
      if user.email.Some? then
        if user.email.value in emailList then Some(emailList[user.email.value]) else None
      else
        if plate in idList then Some(idList[plate]) else None
    }

    /** The objects a registration may change besides the registry: at most the one it merges into. */
    function Targets(user: User, plate: string): (r: set<User>)
      reads this
      ensures r <= emailList.Values + idList.Values
    {
      match Target(user, plate)
      case None => {}
      case Some(t) => {t}
    }

    /**
     * `add_users(user, plate)`. A plate that is not six characters long
     * raises (ok is false) and nothing changes. Otherwise the user is filed
     * in `email_list` or `id_list` (FileUser), and the passed object, not
     * the one it merged into, is appended to `plate_list[plate]`.
     */
    method AddUsers(user: User, plate: string) returns (ok: bool)
      requires EmailKeyed(emailList) && IdKeyed(idList)
      modifies this, Targets(user, plate)
      ensures ok <==> |plate| == 6
      ensures !ok ==> emailList == old(emailList) && idList == old(idList) && plateList == old(plateList)
      ensures ok ==> emailList == EmailsAfter(old(emailList), user)
      ensures ok ==> idList == IdsAfter(old(idList), user, plate)
      ensures ok ==> plateList == PlatesAfter(old(plateList), user, plate)
      ensures forall t :: t in old(Targets(user, plate)) ==>
        t.licence == (if ok then old(t.licence) + {plate} else old(t.licence)) && t.id == old(t.id)
      ensures forall e :: e in old(emailList) ==> old(emailList[e].licence) <= emailList[e].licence
      ensures forall p :: p in old(idList) ==> old(idList[p].licence) <= idList[p].licence
      ensures !ok ==> forall e :: e in emailList ==> emailList[e].licence == old(emailList[e].licence)
      ensures !ok ==> forall p :: p in idList ==> idList[p].licence == old(idList[p].licence)
      ensures ok ==> forall e :: e in emailList ==> emailList[e].licence == old(EmailLicenceAfter(emailList, user, plate, e))
      ensures ok ==> forall p :: p in idList ==> idList[p].licence == old(IdLicenceAfter(idList, user, plate, p))
      ensures ok && plate in old(user.licence) ==>
        if user.email.Some? then plate in emailList[user.email.value].licence else plate in idList[plate].licence
    {
      if |plate| != 6 {
        return false;
      }
      ok := true;
      FileUser(user, plate);
      if plate in plateList {
        plateList := plateList[plate := plateList[plate] + [user]];
      } else {
        plateList := plateList[plate := [user]];
        assert [] + [user] == [user];
      }
    }

    /**
     * The dictionary half of `add_users`. A user with an email joins
     * `email_list` under a new email, or adds the plate to the user already
     * there; a user without one joins `id_list` under a new plate, or adds
     * the plate to the user already there. The email branch leaves `id_list`
     * alone and the other branch leaves `email_list` alone; no user already
     * filed loses a plate, and the user the key selects afterwards holds the
     * plate whenever the passed user did.
     */
    method FileUser(user: User, plate: string)
      requires EmailKeyed(emailList) && IdKeyed(idList)
      modifies this`emailList, this`idList, Targets(user, plate)
      ensures emailList == EmailsAfter(old(emailList), user)
      ensures idList == IdsAfter(old(idList), user, plate)
      ensures forall t :: t in old(Targets(user, plate)) ==> t.licence == old(t.licence) + {plate} && t.id == old(t.id)
      ensures forall e :: e in old(emailList) ==> old(emailList[e].licence) <= emailList[e].licence
      ensures forall p :: p in old(idList) ==> old(idList[p].licence) <= idList[p].licence
      ensures forall e :: e in emailList ==> emailList[e].licence == old(EmailLicenceAfter(emailList, user, plate, e))
      ensures forall p :: p in idList ==> idList[p].licence == old(IdLicenceAfter(idList, user, plate, p))
      ensures plate in old(user.licence) ==>
        if user.email.Some? then plate in emailList[user.email.value].licence else plate in idList[plate].licence
    {
      if user.email.Some? {
        var e := user.email.value;
        if e !in emailList {
          emailList := emailList[e := user];
        } else {
          var t := emailList[e];
          t.licence := t.licence + {plate};
        }
      } else {
        if plate !in idList {
          idList := idList[plate := user];
        } else {
          var t := idList[plate];
          t.licence := t.licence + {plate};
        }
      }
    }

    /** `add_users` for the user built from row i, keeping the registry keyed and every row so far registered. */
    method Register(user: User, plate: string, ghost rows: seq<SubscriptionRow>, ghost i: nat) returns (ok: bool)
      requires Valid() && i < |rows| && HoldsRows(rows[..i])
      requires user.email == rows[i].email && plate == PlateOf(rows[i]) && user.licence == {plate}
      modifies this, Targets(user, plate)
      ensures ok <==> |plate| == 6
      ensures Valid()
      ensures HoldsRows(rows[..if ok then i + 1 else i])
      ensures emailList.Values <= old(emailList.Values) + {user} && idList.Values <= old(idList.Values) + {user}
    {
      AfterValues(emailList, idList, user, plate);
      ghost var emails, ids, plates := emailList, idList, plateList;
      ok := AddRowUser(user, plate, rows, i);
      if ok {
        RegistrationKeepsKeyed(emails, ids, plates, user, plate);
        RegistrationListsRow(emails, ids, plates, rows, i, user);
      }
    }

    /**
     * The plate sets half of Register: `add_users` for the user built from
     * row i leaves every user holding exactly the plates its rows gave it.
     */
    method AddRowUser(user: User, plate: string, ghost rows: seq<SubscriptionRow>, ghost i: nat) returns (ok: bool)
      requires EmailKeyed(emailList) && IdKeyed(idList) && i < |rows|
      requires KeysFromRows(emailList, idList, rows[..i]) && PlateSetsExact(rows[..i])
      requires user.email == rows[i].email && plate == PlateOf(rows[i]) && user.licence == {plate}
      modifies this, Targets(user, plate)
      ensures ok <==> |plate| == 6
      ensures !ok ==> emailList == old(emailList) && idList == old(idList) && plateList == old(plateList)
      ensures ok ==> emailList == EmailsAfter(old(emailList), user)
      ensures ok ==> idList == IdsAfter(old(idList), user, plate)
      ensures ok ==> plateList == PlatesAfter(old(plateList), user, plate)
      ensures ok ==> PlateSetsExact(rows[..i + 1])
      ensures !ok ==> PlateSetsExact(rows[..i])
    {
      ghost var emails, ids := emailList, idList;
      ghost var before, after := rows[..i], rows[..i + 1];
      ok := AddUsers(user, plate);
      if ok {
        EmailPlatesStep(rows, i);
        forall e | e in emailList
          ensures emailList[e].licence == EmailPlates(after, e)
        {
          if e !in emails {
            assert e !in EmailsOf(before);
            EmailPlatesOfAbsent(before, e);
          }
        }
        forall p | p in idList
          ensures idList[p].licence == {p}
        {
          if p in ids && plate in ids {
            assert old(ids[p].licence) == {p} && old(ids[plate].licence) == {plate};
          }
        }
      }
    }

    /**
     * Every processed row is registered: `plate_list` counts its plate, its
     * key is one of the dictionaries' keys and they hold no other, and each
     * user holds exactly the plates its rows gave it.
     */
    ghost predicate HoldsRows(rows: seq<SubscriptionRow>)
      reads this, emailList.Values, idList.Values
    {
      ListsRows(emailList, idList, plateList, rows) && PlateSetsExact(rows)
    }

    /**
     * The user under an email holds exactly the stripped plates of the rows
     * with that email, and the user under a plate in `id_list` holds that
     * plate alone.
     */
    ghost predicate PlateSetsExact(rows: seq<SubscriptionRow>)
      reads this, emailList.Values, idList.Values
    {
      && (forall e :: e in emailList ==> emailList[e].licence == EmailPlates(rows, e))
      && (forall p :: p in idList ==> idList[p].licence == {p})
    }

    /** What a registry holding the rows says of one of them: its key is listed and its user holds its plate. */
    lemma RowHeld(rows: seq<SubscriptionRow>, j: nat)
      requires HoldsRows(rows) && j < |rows|
      ensures rows[j].email.Some? ==>
        rows[j].email.value in emailList && PlateOf(rows[j]) in emailList[rows[j].email.value].licence
      ensures rows[j].email.None? ==> PlateOf(rows[j]) in idList && idList[PlateOf(rows[j])].licence == {PlateOf(rows[j])}
    {
      if rows[j].email.Some? {
        EmailsOfIsRowEmails(rows, rows[j].email.value);
        EmailPlatesAreRowPlates(rows, rows[j].email.value, PlateOf(rows[j]));
      } else {
        IdPlatesOfIsEmailLessPlates(rows, PlateOf(rows[j]));
      }
    }

    /** The plates under which a user object is a key of `id_list`. */
    function PlatesOf(u: User): set<string>
      reads this
    {
      set p | p in idList && idList[p] == u
    }

    /**
     * The id back-fill: every transaction whose plate is a key of `id_list`
     * counts as found and overwrites that user's id, so each user ends with
     * the id of the last transaction on any of its plates.
     */
    method BackfillIds(txs: seq<Transaction>) returns (found: nat)
      modifies idList.Values
      ensures found == MatchCount(txs, idList.Keys)
      ensures forall p :: p in idList ==> idList[p].id == LastId(txs, PlatesOf(idList[p]), old(idList[p].id))
      ensures forall p :: p in idList ==> idList[p].licence == old(idList[p].licence)
    {
      found := 0;
      var i := 0;
      while i < |txs|
        invariant 0 <= i <= |txs|
        invariant found == MatchCount(txs[..i], idList.Keys)
        invariant forall p :: p in idList ==>
          idList[p].id == LastId(txs[..i], PlatesOf(idList[p]), old(idList[p].id))
        invariant forall p :: p in idList ==> idList[p].licence == old(idList[p].licence)
      {
        assert txs[..i + 1][..i] == txs[..i];
        var plate := txs[i].plate;
        if plate in idList {
          found := found + 1;
          var u := idList[plate];
          u.id := Some(txs[i].userId);
          assert forall p :: p in idList ==> (idList[p] == u <==> plate in PlatesOf(idList[p]));
        }
        i := i + 1;
      }
      assert txs[..i] == txs;
    }
  }

  /**
   * The registration loop as written. An email-less row builds a user with
   * neither email nor id, so the constructor's assertion stops the run at
   * the first such row; a bad plate stops it in `add_users`. Every row before
   * the stop is registered.
   */
  method RegisterRowsAsWritten(rows: seq<SubscriptionRow>) returns (reg: Registry, outcome: RunOutcome)
    ensures fresh(reg) && reg.Valid()
    ensures outcome == StopAsWritten(rows, 0)
    ensures reg.HoldsRows(rows[..RowsDone(outcome, |rows|)])
  {
    reg := new Registry();
    ghost var made: set<User> := {};
    ghost var stop := StopAsWritten(rows, 0);
    var i := 0;
    while i < |rows|
      invariant 0 <= i <= |rows|
      invariant fresh(reg) && reg.Valid()
      invariant reg.emailList.Values + reg.idList.Values <= made && fresh(made)
      invariant stop == StopAsWritten(rows, i)
      invariant reg.HoldsRows(rows[..i])
    {
      var row := rows[i];
      var plate := PlateOf(row);
      StopAsWrittenStep(rows, i, plate);
      if !OneKey(row.email, None) {
        return reg, KeyAssertion(i);
      }
      var ok;
      ok, made := Enrol(reg, rows, i, made);
      if !ok {
        return reg, PlateAssertion(i);
      }
      i := i + 1;
    }
    return reg, Completed;
  }

  /**
   * The user built from a row: keyed by its email when the row has one, and
   * otherwise a plate-keyed user with no names, email, number or id.
   */
  method UserOf(row: SubscriptionRow, plate: string) returns (user: User)
    ensures fresh(user) && user.email == row.email && user.id.None? && user.licence == {plate}
    ensures row.email.Some? ==> user.first == row.first && user.last == row.last && user.number == row.phone
    ensures row.email.None? ==> user.first.None? && user.last.None? && user.number.None?
  {
    if row.email.None? {
      user := new User.PlateKeyed(plate);
    } else {
      user := new User(row.first, row.last, row.email, row.phone, plate, None);
    }
  }

  /**
   * One pass of a registration loop: build row i's user and register it.
   * Every user the registry then holds is one it held before or the new one.
   */
  method Enrol(reg: Registry, rows: seq<SubscriptionRow>, i: nat, ghost made: set<User>)
    returns (ok: bool, ghost made': set<User>)
    requires reg.Valid() && i < |rows| && reg.HoldsRows(rows[..i])
    requires reg.emailList.Values + reg.idList.Values <= made
    modifies reg, made
    ensures ok <==> |PlateOf(rows[i])| == 6
    ensures reg.Valid() && reg.HoldsRows(rows[..if ok then i + 1 else i])
    ensures reg.emailList.Values + reg.idList.Values <= made' && fresh(made' - made)
  {
    var plate := PlateOf(rows[i]);
    var user := UserOf(rows[i], plate);
    ok := reg.Register(user, plate, rows, i);
    made' := made + {user};
  }

  /**
   * The registration loop with email-less rows built as plate-keyed users, as
   * the `id_list` design intends: only a bad plate stops the run, and every
   * row before the stop is registered.
   */
  method RegisterRows(rows: seq<SubscriptionRow>) returns (reg: Registry, outcome: RunOutcome)
    ensures fresh(reg) && reg.Valid()
    ensures outcome == Stop(rows, 0)
    ensures reg.HoldsRows(rows[..RowsDone(outcome, |rows|)])
  {
    reg := new Registry();
    ghost var made: set<User> := {};
    ghost var stop := Stop(rows, 0);
    var i := 0;
    while i < |rows|
      invariant 0 <= i <= |rows|
      invariant fresh(reg) && reg.Valid()
      invariant reg.emailList.Values + reg.idList.Values <= made && fresh(made)
      invariant stop == Stop(rows, i)
      invariant reg.HoldsRows(rows[..i])
    {
      var row := rows[i];
      var plate := PlateOf(row);
      StopStep(rows, i, plate);
      var ok;
      ok, made := Enrol(reg, rows, i, made);
      if !ok {
        return reg, PlateAssertion(i);
      }
      i := i + 1;
    }
    return reg, Completed;
  }
}
