/** The credentials `registerUser` derives from a validated registration:
    first and last name, the generated user name and password, and the
    user id built from the e-mail and the current time. */
module Credentials {
  import opened Strings

  /** `name.split(' ')[0] || 'User'`. */
  function FirstName(name: string): string {
    var first := Split(name, ' ')[0];
    if |first| > 0 then first else "User"
  }

  /** `name.split(' ').slice(1).join(' ') || 'Name'`. */
  function LastName(name: string): string {
    var parts := Split(name, ' ');
    var rest := if |parts| == 1 then "" else Join(parts[1..], ' ');
    if |rest| > 0 then rest else "Name"
  }

  /** The first name is the text before the first space (or all of it when
      there is none); the last name is the text after that space. Empty
      parts fall back to "User" and "Name". */
  lemma {:induction false} NamesSplitAtFirstSpace(before: string, after: string)
    requires ' ' !in before
    ensures FirstName(before + " " + after) == (if |before| > 0 then before else "User")
    ensures LastName(before + " " + after) == (if |after| > 0 then after else "Name")
  {
    var name := before + " " + after;
    assert name == before + ([' '] + after);
    SplitPrefix(before, [' '] + after, ' ');
    assert ([' '] + after)[1..] == after;
    var tail := Split([' '] + after, ' ');
    assert tail == [""] + Split(after, ' ');
    assert tail[1..] == Split(after, ' ');
    assert before + tail[0] == before;
    var parts := Split(name, ' ');
    assert parts == [before] + Split(after, ' ');
    assert parts[1..] == Split(after, ' ');
    JoinSplit(after, ' ');
  }

  /** A name without spaces is all first name, and the last name defaults. */
  lemma {:induction false} SingleWordName(name: string)
    requires ' ' !in name
    ensures FirstName(name) == (if |name| > 0 then name else "User")
    ensures LastName(name) == "Name"
  {
    SplitJoin([name], ' ');
  }

  /** `phone.slice(0, 4)`. */
  function PhonePrefix(phone: string): (r: string)
    ensures |r| == if |phone| < 4 then |phone| else 4
    ensures StartsWith(phone, r)
  {
    if |phone| < 4 then phone else phone[..4]
  }

  /** `${firstNameLower}@${phone.slice(0, 4)}`. */
  function Password(name: string, phone: string): string {
    LowerAscii(FirstName(name)) + "@" + PhonePrefix(phone)
  }

  /** `${firstNameLower}.${lastNameLower}@${n}` with `n` the injected
      value of `Math.floor(1000 + Math.random() * 9000)`. */
  function UserName(name: string, n: int): string {
    LowerAscii(FirstName(name)) + "." + LowerAscii(LastName(name)) + "@" + Decimal(n)
  }

  /** `email.replace(/[^a-zA-Z0-9]/g, '_')`. */
  function SanitizeEmail(email: string): (r: string)
    ensures |r| == |email|
    ensures forall i :: 0 <= i < |email| ==>
      r[i] == (if IsAsciiAlnum(email[i]) then email[i] else '_')
  {
    if |email| == 0 then "" else
      [if IsAsciiAlnum(email[0]) then email[0] else '_'] + SanitizeEmail(email[1..])
  }

  /** `user_${sanitized email}_${Date.now()}` with the time injected. */
  function UserId(email: string, now: int): string {
    "user_" + SanitizeEmail(email) + "_" + Decimal(now)
  }

  /** The user id reads back as `user_`, the sanitized e-mail in the
      e-mail's own length, `_` and the decimal time. */
  lemma UserIdParts(email: string, now: int)
    ensures |UserId(email, now)| == 6 + |email| + |Decimal(now)|
    ensures StartsWith(UserId(email, now), "user_")
    ensures UserId(email, now)[5..5 + |email|] == SanitizeEmail(email)
    ensures UserId(email, now)[5 + |email|..] == "_" + Decimal(now)
  {
    var s, d := SanitizeEmail(email), Decimal(now);
    var r := "user_" + s + "_" + d;
    assert r == "user_" + (s + ("_" + d));
    assert r[..5] == "user_";
    assert r[5..] == s + ("_" + d);
    assert r[5..][..|email|] == s;
    assert r[5..][|email|..] == "_" + d;
  }

  /** Between `user_` and the time, the user id holds only ASCII letters,
      digits and `_`. */
  lemma UserIdCharacters(email: string, now: int)
    ensures forall i :: 5 <= i < 5 + |email| ==> IsAsciiAlnum(UserId(email, now)[i]) || UserId(email, now)[i] == '_'
  {
    UserIdParts(email, now);
    var r := UserId(email, now);
    forall i | 5 <= i < 5 + |email|
      ensures IsAsciiAlnum(r[i]) || r[i] == '_'
    {
      assert r[i] == r[5..5 + |email|][i - 5] == SanitizeEmail(email)[i - 5];
    }
  }

  /** The password is the lower-cased first name, "@", and the first four
      characters of the phone; for a validated phone these are exactly four. */
  lemma PasswordShape(name: string, phone: string)
    requires |phone| >= 10
    ensures Password(name, phone) == LowerAscii(FirstName(name)) + "@" + phone[..4]
    ensures |Password(name, phone)| == |FirstName(name)| + 5
  {
  }

  /** Two e-mails that differ only in non-alphanumeric characters get the
      same user id at the same instant. */
  lemma SanitizedCollision(now: int)
    ensures UserId("a.b@x.com", now) == UserId("a_b@x_com", now)
  {
    var s1, s2 := SanitizeEmail("a.b@x.com"), SanitizeEmail("a_b@x_com");
    assert forall i :: 0 <= i < 9 ==> s1[i] == s2[i];
    assert s1 == s2;
  }
}
