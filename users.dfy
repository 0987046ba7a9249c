/**
 * src/models/UserModel.js: the user schema's field rules and the mapper bound
 * to table `users`.
 *
 * The rules that the schema library decides on its own (email syntax, what
 * counts as a date) are parameters here; the length bounds, the integer
 * fields and the password pattern are stated in full.
 */
module Users {
  import opened JsValues
  import opened Mapper

  const UsersTable := "users"

  // ---------------------------------------------------------------------------
  // The part of regular expressions the schema uses

  datatype CharRange = CharRange(lo: char, hi: char)

  /** A character class `[...]`, or `r{min,max}`. */
  datatype Regex = Class(ranges: seq<CharRange>) | Repeat(body: Regex, min: nat, max: nat)

  predicate InClass(ranges: seq<CharRange>, c: char) {
    exists i :: 0 <= i < |ranges| && ranges[i].lo <= c <= ranges[i].hi
  }

  /** `/^r$/.test(s)`: the whole of s matches r. */
  ghost predicate FullMatch(r: Regex, s: string)
    decreases |s|, r
  {
    match r
    case Class(ranges) => |s| == 1 && InClass(ranges, s[0])
    case Repeat(body, min, max) =>
      || (min == 0 && s == [])
      || (max > 0 && exists i :: 0 < i <= |s| && FullMatch(body, s[..i]) &&
                                 FullMatch(Repeat(body, if min > 0 then min - 1 else 0, max - 1), s[i..]))
  }

  /** `/^[a-zA-Z0-9]{3,30}$/` */
  const PasswordPattern := Repeat(Class([CharRange('a', 'z'), CharRange('A', 'Z'), CharRange('0', '9')]), 3, 30)

  predicate IsAsciiAlphanumeric(c: char) {
    'a' <= c <= 'z' || 'A' <= c <= 'Z' || '0' <= c <= '9'
  }

  /** What the password pattern promises: 3 to 30 characters, each an ASCII letter or digit. */
  predicate PasswordShape(s: string) {
    3 <= |s| <= 30 && forall i :: 0 <= i < |s| ==> IsAsciiAlphanumeric(s[i])
  }

  // ---------------------------------------------------------------------------
  // Field rules

  datatype Rule =
    | IntegerRule                                                      // number().integer()
    | StringRule(minLength: Option<nat>, maxLength: Option<nat>, pattern: Option<Regex>)  // string()
    | EmailRule                                                        // string().email()
    | DateRule                                                         // date()

  /** The fields `userSchema` declares. */
  const UserFields := ["id", "first_name", "last_name", "email", "password", "google_id", "default_address", "created_at"]

  /** `userSchema`: the rule of each field it declares, and none for any other key. */
  function UserRule(key: string): (r: Option<Rule>)
    ensures r.Some? <==> key in UserFields
    ensures r.Some? && r.value.StringRule? ==> key in ["first_name", "last_name", "password", "google_id"]
  {
    if key == "id" then Some(IntegerRule)
    else if key == "first_name" then Some(StringRule(Some(2), Some(255), None))
    else if key == "last_name" then Some(StringRule(Some(2), Some(255), None))
    else if key == "email" then Some(EmailRule)
    else if key == "password" then Some(StringRule(None, None, Some(PasswordPattern)))
    else if key == "google_id" then Some(StringRule(None, Some(255), None))
    else if key == "default_address" then Some(IntegerRule)
    else if key == "created_at" then Some(DateRule)
    else None
  }

  predicate IsInteger(v: Value) {
    v.Num? && v.x.Floor as real == v.x
  }

  /**
   * Whether a present value passes a rule. A string rule refuses the empty
   * string before its bounds are looked at; `isEmail` and `isDate` are the
   * library's own checks.
   */
  ghost predicate Accepts(rule: Rule, v: Value, isEmail: string -> bool, isDate: Value -> bool)
    ensures Accepts(rule, v, isEmail, isDate) && (rule.StringRule? || rule.EmailRule?) ==> v.Str? && |v.s| >= 1
    ensures Accepts(rule, v, isEmail, isDate) && rule.IntegerRule? ==> v.Num?
  {
    match rule
    case IntegerRule => IsInteger(v)
    case StringRule(minLength, maxLength, pattern) =>
      && v.Str? && v.s != ""
      && (minLength.Some? ==> |v.s| >= minLength.value)
      && (maxLength.Some? ==> |v.s| <= maxLength.value)
      && (pattern.Some? ==> FullMatch(pattern.value, v.s))
    case EmailRule => v.Str? && v.s != "" && isEmail(v.s)
    case DateRule => isDate(v)
  }

  // ---------------------------------------------------------------------------
  // The mapper for table `users`

  class UserModel {
    /** The BaseModel this UserModel extends. */
    const base: BaseModel

    ghost predicate Valid() {
      base.tableName == UsersTable
    }

    constructor ()
      ensures Valid()
      ensures fresh(base) && base.modelData == Obj([])
    {
      base := new BaseModel(UsersTable);
    }

    method FindByEmail(email: Value, db: Database) returns (r: Outcome)
      requires Valid()
      ensures r == Run(FindOneQuery(UsersTable, Obj([Entry("email", email)])), db)
      ensures r == Returned(FirstRow(db(FindOneSql(UsersTable, "email = $1"), [email])))
    {
      FindByEmailQuery(email);
      r := base.FindOne(Obj([Entry("email", email)]), db);
    }
  }

  // ---------------------------------------------------------------------------
  // Lemmas

  /** `findByEmail(e)` sends `WHERE email = $1` with the single parameter e. */
  lemma FindByEmailQuery(email: Value)
    ensures FindOneQuery(UsersTable, Obj([Entry("email", email)])) ==
            Success(Query(FindOneSql(UsersTable, "email = $1"), [email]))
  {
    var entries := [Entry("email", email)];
    assert Keys(entries) == ["email"];
    assert Values(entries) == [email];
    assert OwnEntries(Obj(entries)) == entries;
    SingleWhereClause("email");
    assert WhereClause(Keys(entries)) == "email = $1";
  }

  /** The WHERE clause of a single column binds it to `$1`. */
  lemma SingleWhereClause(column: string)
    ensures WhereClause([column]) == column + " = $1"
  {
    assert NatToString(1) == "1";
    assert Placeholder(1) == "$1";
    var cs := Conditions([column], 1);
    assert cs[0] == Condition(column, 1) == column + " = $1";
    assert cs == [column + " = $1"];
  }


  lemma {:induction false} RepeatClass(ranges: seq<CharRange>, min: nat, max: nat, s: string)
    ensures FullMatch(Repeat(Class(ranges), min, max), s) <==>
            min <= |s| <= max && forall i :: 0 <= i < |s| ==> InClass(ranges, s[i])
    decreases |s|
  {
    var body := Class(ranges);
    if s != [] && max > 0 {
      var next := Repeat(body, if min > 0 then min - 1 else 0, max - 1);
      RepeatClass(ranges, if min > 0 then min - 1 else 0, max - 1, s[1..]);
      if FullMatch(Repeat(body, min, max), s) {
        var i :| 0 < i <= |s| && FullMatch(body, s[..i]) && FullMatch(next, s[i..]);
        assert i == 1;
        assert s[..1] == [s[0]];
        assert forall j :: 1 <= j < |s| ==> s[j] == s[1..][j - 1];
      }
      if min <= |s| <= max && forall i :: 0 <= i < |s| ==> InClass(ranges, s[i]) {
        assert s[..1] == [s[0]];
        assert FullMatch(body, s[..1]);
        assert FullMatch(next, s[1..]);
      }
    }
  }

  /** A password passes the pattern iff it has 3 to 30 characters, all ASCII letters or digits. */
  lemma PasswordPatternMeaning(s: string)
    ensures FullMatch(PasswordPattern, s) <==> PasswordShape(s)
  {
    var ranges := [CharRange('a', 'z'), CharRange('A', 'Z'), CharRange('0', '9')];
    RepeatClass(ranges, 3, 30, s);
    forall c: char ensures InClass(ranges, c) <==> IsAsciiAlphanumeric(c) {
      if IsAsciiAlphanumeric(c) {
        if 'a' <= c <= 'z' { assert ranges[0].lo <= c <= ranges[0].hi; }
        else if 'A' <= c <= 'Z' { assert ranges[1].lo <= c <= ranges[1].hi; }
        else { assert ranges[2].lo <= c <= ranges[2].hi; }
      }
    }
  }

  lemma PasswordRule(v: Value, isEmail: string -> bool, isDate: Value -> bool)
    ensures UserRule("password").Some?
    ensures Accepts(UserRule("password").value, v, isEmail, isDate) <==> v.Str? && PasswordShape(v.s)
  {
    if v.Str? {
      PasswordPatternMeaning(v.s);
    }
  }

  lemma NameRules(v: Value, isEmail: string -> bool, isDate: Value -> bool)
    ensures UserRule("first_name").Some? && UserRule("last_name").Some?
    ensures Accepts(UserRule("first_name").value, v, isEmail, isDate) <==> v.Str? && 2 <= |v.s| <= 255
    ensures Accepts(UserRule("last_name").value, v, isEmail, isDate) <==> v.Str? && 2 <= |v.s| <= 255
  {
  }

  /** `google_id`: at most 255 characters, and (as for every string rule) not empty. */
  lemma GoogleIdRule(v: Value, isEmail: string -> bool, isDate: Value -> bool)
    ensures UserRule("google_id").Some?
    ensures Accepts(UserRule("google_id").value, v, isEmail, isDate) <==> v.Str? && 1 <= |v.s| <= 255
  {
  }

  lemma IntegerRules(v: Value, isEmail: string -> bool, isDate: Value -> bool)
    ensures UserRule("id") == Some(IntegerRule)
    ensures UserRule("default_address") == Some(IntegerRule)
    ensures Accepts(IntegerRule, v, isEmail, isDate) <==> v.Num? && v.x == v.x.Floor as real
  {
  }
}
