/**
 * The subscriber record of User.py: optional names, email, phone number and
 * id, and the set of licence plates registered to the user. Users compare by
 * email when both have one and by id otherwise.
 */
module UserRecord {
  import opened Wrappers
  import opened Text
  import opened Records

  /** The closing line of `__str__`: 47 underscores and a space. */
  function Rule(): string
  {
    seq(47, _ => '_') + " "
  }

  /** How an f-string shows an optional text: "None" when absent. */
  function Show(o: Option<string>): string
  {
    match o
    case None => "None"
    case Some(s) => s
  }

  /** How an f-string shows an optional id. */
  function ShowId(o: Option<int>): string
  {
    match o
    case None => "None"
    case Some(n) => IntText(n)
  }

  /** Every line followed by a newline. */
  function Unlines(lines: seq<string>): string
  {
    if lines == [] then [] else lines[0] + "\n" + Unlines(lines[1..])
  }

  /** Splitting newline-terminated lines at the newlines gives the lines back, and an empty tail. */
  lemma {:induction false} SplitUnlines(lines: seq<string>)
    requires forall i :: 0 <= i < |lines| ==> '\n' !in lines[i]
    ensures Split(Unlines(lines), '\n') == lines + [[]]
  {
    if lines != [] {
      SplitUnlines(lines[1..]);
      SplitAround(lines[0], Unlines(lines[1..]), '\n');
      assert lines == [lines[0]] + lines[1..];
    }
  }

  lemma UnlinesCons(x: string, rest: seq<string>)
    ensures Unlines([x] + rest) == (x + "\n") + Unlines(rest)
  {
    assert ([x] + rest)[1..] == rest;
  }

  class User {
    const first: Option<string>
    const last: Option<string>
    const email: Option<string>
    const number: Option<int>
    const id: Option<int>
    /** The plates registered to the user; a set, so a plate is held once. */
    var license: set<string>

    /** `User(first, last, email, number, license, id_num)`: a user holding one plate. */
    constructor (first: Option<string>, last: Option<string>, email: Option<string>,
                 number: Option<int>, license: string, id: Option<int>)
      ensures this.first == first && this.last == last && this.email == email
      ensures this.number == number && this.id == id
      ensures this.license == {license}
      ensures Len() == 1
    {
      this.first := first;
      this.last := last;
      this.email := email;
      this.number := number;
      this.id := id;
      this.license := {license};
    }

    /** `len(user)`: the number of distinct plates. */
    function Len(): nat
      reads this`license
    {
      |license|
    }

    /**
     * `user == other`: between users, by email when both have one and
     * otherwise by a present, equal id; against a string, by email; against
     * an int, by id; against anything else, never.
     */
    predicate Equals(other: Operand<User>)
    {
      match other
      case AUser(u) => if email.Some? && u.email.Some? then email == u.email else id.Some? && id == u.id
      case AText(s) => email == Some(s)
      case ANumber(n) => id == Some(n)
      case AnotherValue => false
    }

    /** The lines `str(user)` prints, without their newlines. */
    function Lines(): seq<string>
      reads this`license
    {
      if email.Some? then
        ["First: " + Show(first), "Last: " + Show(last), "Email: " + Show(email),
         "Car Number: " + Decimal(|license|), Rule()]
      else
        ["ID: " + ShowId(id), "Car Number: " + Decimal(|license|), Rule()]
    }

    /** `str(user)`. */
    function Describe(): string
      reads this`license
    {
      if email.Some? then
        ("First: " + Show(first) + "\n") + ("Last: " + Show(last) + "\n") + ("Email: " + Show(email) + "\n")
        + ("Car Number: " + Decimal(|license|) + "\n") + (Rule() + "\n")
      else
        ("ID: " + ShowId(id) + "\n") + ("Car Number: " + Decimal(|license|) + "\n") + (Rule() + "\n")
    }

    /** `add_license(plate)`: the plate joins the set; adding a held plate changes nothing. */
    method AddLicense(plate: string)
      modifies this`license
      ensures license == old(license) + {plate}
      ensures plate in old(license) ==> license == old(license)
      ensures Len() == old(Len()) + (if plate in old(license) then 0 else 1)
    {
      license := license + {plate};
    }
  }

  // ---------------------------------------------------------------------
  // Equality

  /** User-to-user equality is symmetric. */
  lemma EqualsSymmetric(a: User, b: User)
    ensures a.Equals(AUser(b)) <==> b.Equals(AUser(a))
  {
  }

  /** A user equals itself exactly when it has an email or an id; with neither it is not even equal to itself. */
  lemma SelfEquality(a: User)
    ensures a.Equals(AUser(a)) <==> a.email.Some? || a.id.Some?
  {
  }

  /**
   * Comparing with a user agrees with comparing with that user's key: its
   * email when both sides have one, its id otherwise.
   */
  lemma EqualsByKey(a: User, b: User)
    ensures a.email.Some? && b.email.Some? ==>
      (a.Equals(AUser(b)) <==> a.Equals(AText(b.email.value)))
    ensures !(a.email.Some? && b.email.Some?) ==>
      (a.Equals(AUser(b)) <==> b.id.Some? && a.Equals(ANumber(b.id.value)))
  {
  }

  /** Equality is not transitive: an email-less user can share an id with two users whose emails differ. */
  lemma EqualsNotTransitive(a: User, b: User, c: User)
    requires a.email.Some? && c.email.Some? && a.email != c.email && b.email.None?
    requires b.id.Some? && a.id == b.id && c.id == b.id
    ensures a.Equals(AUser(b)) && b.Equals(AUser(c)) && !a.Equals(AUser(c))
  {
  }

  // ---------------------------------------------------------------------
  // The printed form

  lemma NoNewlineInLines(u: User)
    requires '\n' !in Show(u.first) && '\n' !in Show(u.last) && '\n' !in Show(u.email)
    requires '\n' !in ShowId(u.id)
    ensures forall i :: 0 <= i < |u.Lines()| ==> '\n' !in u.Lines()[i]
  {
    var count := Decimal(|u.license|);
    assert '\n' !in count by {
      assert forall i :: 0 <= i < |count| ==> IsDigit(count[i]);
    }
    assert '\n' !in Rule() by {
      assert forall i :: 0 <= i < |Rule()| ==> Rule()[i] == '_' || Rule()[i] == ' ';
    }
  }

  /** Three newline-terminated lines, written out. */
  lemma UnlinesThree(c: string, d: string, e: string)
    ensures Unlines([c, d, e]) == (c + "\n") + (d + "\n") + (e + "\n")
  {
    UnlinesCons(e, []);
    assert [e] + [] == [e];
    UnlinesCons(d, [e]);
    assert [d] + [e] == [d, e];
    UnlinesCons(c, [d, e]);
    assert [c] + [d, e] == [c, d, e];
  }

  /** Five newline-terminated lines, written out. */
  lemma UnlinesFive(a: string, b: string, c: string, d: string, e: string)
    ensures Unlines([a, b, c, d, e]) == (a + "\n") + (b + "\n") + (c + "\n") + (d + "\n") + (e + "\n")
  {
    var x, y, z := c + "\n", d + "\n", e + "\n";
    UnlinesThree(c, d, e);
    UnlinesCons(b, [c, d, e]);
    assert [b] + [c, d, e] == [b, c, d, e];
    UnlinesCons(a, [b, c, d, e]);
    assert [a] + [b, c, d, e] == [a, b, c, d, e];
    var p, q := a + "\n", b + "\n";
    assert Unlines([a, b, c, d, e]) == p + (q + (x + y + z));
    assert p + (q + (x + y + z)) == p + q + x + y + z;
  }

  lemma DescribeIsUnlines(u: User)
    ensures u.Describe() == Unlines(u.Lines())
  {
    var lines := u.Lines();
    if u.email.Some? {
      UnlinesFive(lines[0], lines[1], lines[2], lines[3], lines[4]);
    } else {
      UnlinesThree(lines[0], lines[1], lines[2]);
    }
  }

  /**
   * `str(user)` is newline-terminated lines: First, Last and Email when the
   * email is present, ID otherwise, then the plate count (which reads back
   * as `len(user)`) and the rule.
   */
  lemma DescribeLines(u: User)
    requires '\n' !in Show(u.first) && '\n' !in Show(u.last) && '\n' !in Show(u.email)
    requires '\n' !in ShowId(u.id)
    ensures var ls := Split(u.Describe(), '\n');
      && |ls| == (if u.email.Some? then 6 else 4)
      && ls[|ls| - 1] == [] && ls[|ls| - 2] == Rule()
      && ls[|ls| - 3] == "Car Number: " + Decimal(u.Len())
      && ParseNat(Decimal(u.Len())) == Some(u.Len())
      && (u.email.Some? ==>
            ls[0] == "First: " + Show(u.first) && ls[1] == "Last: " + Show(u.last)
            && ls[2] == "Email: " + u.email.value)
      && (u.email.None? ==> ls[0] == "ID: " + ShowId(u.id))
  {
    NoNewlineInLines(u);
    DescribeIsUnlines(u);
    SplitUnlines(u.Lines());
    ParseDecimal(|u.license|);
  }
}
