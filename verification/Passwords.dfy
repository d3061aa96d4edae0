/** Password changes: the policy, the history check, and the two ways a password is replaced. */
module Passwords {
  import opened Collections
  import opened Results
  import opened Text

  type UserId = nat

  datatype Policy = Policy(minLength: int, upper: bool, numbers: bool, special: bool, historyCount: int)

  /** A user; hashing is idealised, so what is stored is taken to be the password itself. A user
      without a usable hash has none. */
  datatype User = User(password: Option<string>, mustChange: bool)

  datatype Record = Record(user: UserId, password: string)

  /** The users and the history table, whose rows stand in the order they were added. */
  datatype Store = Store(users: map<UserId, User>, history: seq<Record>)

  predicate Verifies(password: string, u: User) {
    u.password == Some(password)
  }

  // ----- the rules -----

  predicate IsUpper(c: char) {
    'A' <= c <= 'Z'
  }

  predicate IsNumber(c: char) {
    '0' <= c <= '9'
  }

  predicate IsSpecial(c: char) {
    !(IsUpper(c) || IsNumber(c) || 'a' <= c <= 'z')
  }

  predicate HasUpper(password: string) {
    exists i :: 0 <= i < |password| && IsUpper(password[i])
  }

  predicate HasNumber(password: string) {
    exists i :: 0 <= i < |password| && IsNumber(password[i])
  }

  predicate HasSpecial(password: string) {
    exists i :: 0 <= i < |password| && IsSpecial(password[i])
  }

  predicate Acceptable(p: Policy, password: string) {
    && |password| >= p.minLength
    && (p.upper ==> HasUpper(password))
    && (p.numbers ==> HasNumber(password))
    && (p.special ==> HasSpecial(password))
  }

  function HistoryOf(history: seq<Record>, user: UserId): seq<string> {
    if history == [] then []
    else
      var last := history[|history| - 1];
      HistoryOf(history[..|history| - 1], user) + if last.user == user then [last.password] else []
  }

  /** The last `n` of a sequence, or all of it. */
  function Last(s: seq<string>, n: nat): seq<string> {
    if n < |s| then s[|s| - n..] else s
  }

  predicate Fresh(p: Policy, history: seq<string>, password: string) {
    p.historyCount > 0 ==> password !in Last(history, p.historyCount)
  }

  // ----- one request -----

  datatype Request =
    | SelfChange(user: UserId, current: string, chosen: string, confirm: string)
    | Reset(user: UserId, chosen: string)

  /** Whether a request replaces the password. */
  predicate Granted(p: Policy, s: Store, r: Request) {
    match r
    case Reset(user, _) => user in s.users
    case SelfChange(user, current, chosen, confirm) =>
      && chosen == confirm
      && user in s.users
      && Verifies(current, s.users[user])
      && Acceptable(p, chosen)
      && Fresh(p, HistoryOf(s.history, user), chosen)
  }

  function Installed(s: Store, user: UserId, password: string): map<UserId, User>
    requires user in s.users
  {
    s.users[user := User(Some(password), false)]
  }

  /** Only a change by the user's own hand retires the old password into the history. */
  function Handle(p: Policy, s: Store, r: Request): Store {
    if !Granted(p, s, r) then s
    else
      Store(Installed(s, r.user, r.chosen),
            if r.SelfChange? then s.history + [Record(r.user, r.current)] else s.history)
  }

  function HandleAll(p: Policy, s: Store, rs: seq<Request>): Store
    decreases |rs|
  {
    if rs == [] then s else HandleAll(p, Handle(p, s, rs[0]), rs[1..])
  }

  /** What a new password fails to be. */
  datatype Complaint = TooShort(least: int) | NoUppercase | NoNumber | NoSpecial

  predicate AllAre(password: string, ok: char -> bool) {
    forall i :: 0 <= i < |password| ==> ok(password[i])
  }

  predicate NoCapital(c: char) {
    c !in "ABCDEFGHIJKLMNOPQRSTUVWXYZ"
  }

  predicate NoDigit(c: char) {
    c !in "0123456789"
  }

  predicate Plain(c: char) {
    c in "abcdefghijklmnopqrstuvwxyz" || !NoCapital(c) || !NoDigit(c)
  }

  lemma LettersIn(c: char)
    ensures c in "ABCDEFGHIJKLMNOPQRSTUVWXYZ" <==> 65 <= c as int <= 90
    ensures c in "abcdefghijklmnopqrstuvwxyz" <==> 97 <= c as int <= 122
  {
    Alphabet();
    assert 65 <= c as int <= 90 ==> UPPERCASE[c as int - 65] == c;
    assert 97 <= c as int <= 122 ==> LOWERCASE[c as int - 97] == c;
  }

  lemma CharactersAre(c: char)
    ensures NoCapital(c) <==> !IsUpper(c)
    ensures NoDigit(c) <==> !IsNumber(c)
    ensures Plain(c) <==> !IsSpecial(c)
  {
    LettersIn(c);
  }

  /** The three rules about characters, with the characters written out. */
  lemma RulesMean(password: string)
    ensures HasUpper(password) <==> !AllAre(password, NoCapital)
    ensures HasNumber(password) <==> !AllAre(password, NoDigit)
    ensures HasSpecial(password) <==> !AllAre(password, Plain)
  {
    forall i | 0 <= i < |password|
      ensures NoCapital(password[i]) <==> !IsUpper(password[i])
      ensures NoDigit(password[i]) <==> !IsNumber(password[i])
      ensures Plain(password[i]) <==> !IsSpecial(password[i])
    {
      CharactersAre(password[i]);
    }
    hide IsUpper, IsNumber, IsSpecial, NoCapital, NoDigit, Plain;
  }

  datatype Response = Changed | Mismatch | NotFound | WrongCurrent | Invalid(errors: seq<Complaint>) | Reused

  /** The service and the policy check on one database. */
  class AuthService {
    var users: map<UserId, User>
    var history: seq<Record>

    constructor (users: map<UserId, User>)
      ensures this.users == users && history == []
    {
      this.users := users;
      history := [];
    }

    function Contents(): Store
      reads this
    {
      Store(users, history)
    }

    /** Every rule that is broken is reported once, the length first. */
    method ValidatePassword(p: Policy, password: string) returns (errors: seq<Complaint>)
      ensures errors == [] <==> Acceptable(p, password)
      ensures forall c :: c in errors <==>
                || (c == TooShort(p.minLength) && |password| < p.minLength)
                || (c == NoUppercase && p.upper && AllAre(password, NoCapital))
                || (c == NoNumber && p.numbers && AllAre(password, NoDigit))
                || (c == NoSpecial && p.special && AllAre(password, Plain))
      ensures NoRepeats(errors)
      ensures |password| < p.minLength ==> errors[0] == TooShort(p.minLength)
    {
      RulesMean(password);
      hide HasUpper, HasNumber, HasSpecial, AllAre;
      errors := [];
      if |password| < p.minLength {
        errors := errors + [TooShort(p.minLength)];
      }
      if p.upper && !HasUpper(password) {
        errors := errors + [NoUppercase];
      }
      if p.numbers && !HasNumber(password) {
        errors := errors + [NoNumber];
      }
      if p.special && !HasSpecial(password) {
        errors := errors + [NoSpecial];
      }
    }

    /** True if the password is none of the user's last ones, as many as the policy counts; they are
        gone through from the newest back. */
    method CheckHistory(p: Policy, user: UserId, password: string) returns (allowed: bool)
      ensures allowed <==> Fresh(p, HistoryOf(history, user), password)
    {
      if p.historyCount <= 0 {
        return true;
      }
      var mine := HistoryOf(history, user);
      var recent := Last(mine, p.historyCount);
      for i := |recent| downto 0
        invariant password !in recent[i..]
      {
        if password == recent[i] {
          return false;
        }
      }
      allowed := true;
    }

    method ChangePassword(user: UserId, chosen: string, recordHistory: bool) returns (found: bool)
      modifies this
      ensures found <==> user in old(users)
      ensures !found ==> Contents() == old(Contents())
      ensures found ==> users == old(users)[user := User(Some(chosen), false)]
      ensures found ==> history == old(history)
                        + (if recordHistory && old(users)[user].password.Some?
                           then [Record(user, old(users)[user].password.value)] else [])
    {
      if user !in users {
        return false;
      }
      if recordHistory && users[user].password.Some? {
        history := history + [Record(user, users[user].password.value)];
      }
      users := users[user := User(Some(chosen), false)];
      found := true;
    }

    method AdminResetPassword(user: UserId, chosen: string) returns (found: bool)
      modifies this
      ensures found <==> user in old(users)
      ensures forall p :: Contents() == Handle(p, old(Contents()), Reset(user, chosen))
      ensures history == old(history)
      ensures users == if user in old(users) then old(users)[user := User(Some(chosen), false)] else old(users)
    {
      found := ChangePassword(user, chosen, false);
    }

    /** The self-service endpoint: the checks in their order, then the change. */
    method SelfServiceChange(p: Policy, user: UserId, current: string, chosen: string, confirm: string)
      returns (response: Response)
      modifies this
      ensures Contents() == Handle(p, old(Contents()), SelfChange(user, current, chosen, confirm))
      ensures response == Changed <==> Granted(p, old(Contents()), SelfChange(user, current, chosen, confirm))
      ensures response == Changed ==>
                && users == old(users)[user := User(Some(chosen), false)]
                && history == old(history) + [Record(user, current)]
      ensures response != Changed ==> Contents() == old(Contents())
      ensures response == Mismatch <==> chosen != confirm
      ensures response == NotFound <==> chosen == confirm && user !in old(users)
      ensures response == WrongCurrent <==>
                chosen == confirm && user in old(users) && old(users)[user].password != Some(current)
      ensures response.Invalid? <==>
                && chosen == confirm && user in old(users) && Verifies(current, old(users)[user])
                && !Acceptable(p, chosen)
      ensures response == Reused <==>
                && chosen == confirm && user in old(users) && Verifies(current, old(users)[user])
                && Acceptable(p, chosen) && !Fresh(p, HistoryOf(old(history), user), chosen)
    {
      if chosen != confirm {
        return Mismatch;
      }
      if user !in users {
        return NotFound;
      }
      if !Verifies(current, users[user]) {
        return WrongCurrent;
      }
      var errors := ValidatePassword(p, chosen);
      if errors != [] {
        return Invalid(errors);
      }
      var allowed := CheckHistory(p, user, chosen);
      if !allowed {
        return Reused;
      }
      var _ := ChangePassword(user, chosen, true);
      response := Changed;
    }
  }
}
