/** `TokenGenerator`: result tokens of the form
    `{quizType}_{userId}_{timestamp}_{random}` and their parsing on `_`.
    The clock and the random bytes are parameters. */
module Tokens {
  import opened Base
  import opened Strings
  import Credentials

  /** `quizId.replace('_v1', '')`: only the first `_v1` goes. */
  function QuizTypeOf(quizId: string): string {
    ReplaceFirst(quizId, "_v1", "")
  }

  /** `Date.now().toString(36)`. */
  function Timestamp(now: nat): (r: string)
    ensures |r| >= 1 && '_' !in r
  {
    var t := NatToDigits(now, 36);
    assert forall i :: 0 <= i < |t| ==> t[i] != '_' by {
      forall i | 0 <= i < |t| ensures t[i] != '_' { assert IsDigitIn(t[i], 36); }
    }
    t
  }

  type RandomBytes = b: seq<bv8> | |b| == 8 witness seq(8, _ => 0 as bv8)

  /** `crypto.randomBytes(8).toString('hex')`. */
  function RandomPart(bytes: RandomBytes): (r: string)
    ensures |r| == 16 && '_' !in r
  {
    var h := Hex(bytes);
    assert forall i :: 0 <= i < |h| ==> h[i] != '_' by {
      forall i | 0 <= i < |h| ensures h[i] != '_' { assert IsDigitIn(h[i], 16); }
    }
    h
  }

  /** `generateResultToken(quizId, userId)` at time `now` with random bytes `bytes`. */
  function GenerateResultToken(quizId: string, userId: string, now: nat, bytes: RandomBytes): (t: string)
    ensures |t| == |QuizTypeOf(quizId)| + |userId| + |Timestamp(now)| + 19
    ensures t[|t| - 16..] == RandomPart(bytes) && t[|t| - 17] == '_'
    ensures t == Join([QuizTypeOf(quizId), userId, Timestamp(now), RandomPart(bytes)], '_')
  {
    JoinFour(QuizTypeOf(quizId), userId, Timestamp(now), RandomPart(bytes), '_');
    QuizTypeOf(quizId) + "_" + userId + "_" + Timestamp(now) + "_" + RandomPart(bytes)
  }

  datatype ParsedToken = ParsedToken(quizType: string, userId: string, timestamp: string, random: Option<string>, quizId: string)

  /** `parseToken(token)`: `null` for an absent or empty token or one with
      fewer than four `_`-separated parts; otherwise the quiz type is the
      first two parts, and the user id, timestamp and random part are parts
      2, 3 and 4 (the last absent when there are exactly four). */
  function ParseToken(token: Option<string>): (r: Option<ParsedToken>)
    ensures r.Some? ==> token.Some? && |Split(token.value, '_')| >= 4
    ensures r.Some? ==> r.value.quizId == r.value.quizType + "_v1"
    ensures r.Some? ==> '_' !in r.value.userId && '_' !in r.value.timestamp
    ensures r.Some? ==> '_' in r.value.quizType
  {
    if token.None? || |token.value| == 0 then None
    else
      var parts := Split(token.value, '_');
      if |parts| < 4 then None
      else
        var qt := parts[0] + "_" + parts[1];
        assert qt[|parts[0]|] == '_';
        Some(ParsedToken(qt, parts[2], parts[3], if |parts| > 4 then Some(parts[4]) else None, qt + "_v1"))
  }

  /** `isValidToken(token)`. */
  predicate IsValidToken(token: Option<string>) {
    ParseToken(token).Some?
  }

  /** A token is valid exactly when it has at least three underscores. */
  lemma ValidIffThreeSeparators(token: string)
    ensures IsValidToken(Some(token)) <==> CountChar(token, '_') >= 3
  {
    SplitLength(token, '_');
  }

  /** Splitting a `_`-free word, `_` and more text. */
  lemma SplitWord(x: string, rest: string)
    requires '_' !in x
    ensures Split(x + "_" + rest, '_') == [x] + Split(rest, '_')
  {
    SplitAtSep(x, rest, '_');
    SplitNoSep(x, '_');
  }

  /** How a token splits: its two quiz-type words, the pieces of the user
      id, the timestamp and the random part. */
  lemma SplitToken(x: string, y: string, mid: string, ts: string, rp: string)
    requires '_' !in x && '_' !in y && '_' !in ts && '_' !in rp
    ensures Split(x + "_" + y + "_" + mid + "_" + ts + "_" + rp, '_') == [x, y] + Split(mid, '_') + [ts, rp]
  {
    var tail := mid + "_" + (ts + "_" + rp);
    var m := Split(mid, '_');
    assert Split(tail, '_') == m + [ts, rp] by {
      SplitTail(mid, ts, rp);
    }
    assert Split(x + "_" + (y + "_" + tail), '_') == [x] + ([y] + Split(tail, '_')) by {
      SplitWord(y, tail);
      SplitWord(x, y + "_" + tail);
    }
    assert [x] + ([y] + (m + [ts, rp])) == [x, y] + m + [ts, rp];
    assert x + "_" + y + "_" + mid + "_" + ts + "_" + rp == x + "_" + (y + "_" + tail) by {
      TokenAssoc(x, y, mid, ts, rp);
    }
  }

  /** The user id's pieces followed by the timestamp and the random part. */
  lemma SplitTail(mid: string, ts: string, rp: string)
    requires '_' !in ts && '_' !in rp
    ensures Split(mid + "_" + (ts + "_" + rp), '_') == Split(mid, '_') + [ts, rp]
  {
    assert Split(ts + "_" + rp, '_') == [ts, rp] by {
      SplitWord(ts, rp);
      SplitNoSep(rp, '_');
    }
    SplitAtSep(mid, ts + "_" + rp, '_');
  }

  /** Helper: the regrouping of a token's concatenation that `SplitToken`
      needs, kept apart so the solver sees it without the split facts. */
  lemma TokenAssoc(x: string, y: string, mid: string, ts: string, rp: string)
    ensures x + "_" + y + "_" + mid + "_" + ts + "_" + rp == x + "_" + (y + "_" + (mid + "_" + (ts + "_" + rp)))
  {
  }

  /** When the quiz type is two `_`-free words and the user id has no `_`,
      parsing a generated token gives back all its pieces. */
  lemma GeneratedTokenParses(quizId: string, x: string, y: string, userId: string, now: nat, bytes: RandomBytes)
    requires QuizTypeOf(quizId) == x + "_" + y
    requires '_' !in x && '_' !in y && '_' !in userId
    ensures ParseToken(Some(GenerateResultToken(quizId, userId, now, bytes))) ==
      Some(ParsedToken(x + "_" + y, userId, Timestamp(now), Some(RandomPart(bytes)), x + "_" + y + "_v1"))
  {
    SplitToken(x, y, userId, Timestamp(now), RandomPart(bytes));
    SplitNoSep(userId, '_');
  }

  /** No `_v1` starts inside `w` when `w` is followed by `_v1`. */
  predicate NoV1Before(w: string) {
    forall j :: 0 <= j < |w| ==> !OccursAt(w + "_v1", "_v1", j)
  }

  lemma SingleWordNoV1(w: string)
    requires '_' !in w
    ensures NoV1Before(w)
  {
    var s := w + "_v1";
    forall j | 0 <= j < |w| ensures !OccursAt(s, "_v1", j) {
      assert s[j] == w[j];
      if j + 3 <= |s| {
        assert s[j..j + 3][0] == s[j];
      }
    }
  }

  /** Prefixing a `_`-free word keeps `_v1` out of the way, provided the
      rest does not start with "v1". */
  lemma JoinedWordsNoV1(x: string, w: string)
    requires '_' !in x && NoV1Before(w) && !StartsWith(w, "v1")
    ensures NoV1Before(x + "_" + w)
  {
    var p, s := x + "_", w + "_v1";
    var q := p + s;
    assert q == x + "_" + w + "_v1";
    forall j | 0 <= j < |x| + 1 + |w| ensures !OccursAt(q, "_v1", j) {
      assert q[j..j + 3] == [q[j], q[j + 1], q[j + 2]];
      if j < |x| {
        assert q[j] == x[j];
      } else if j == |x| {
        assert q[j + 1] == s[0] && q[j + 2] == s[1];
        if |w| >= 2 {
          assert w[..2] == [w[0], w[1]];
          assert s[0] == w[0] && s[1] == w[1];
        } else if |w| == 1 {
          assert s[1] == '_';
        } else {
          assert s[0] == '_';
        }
      } else {
        assert q[j..j + 3] == s[j - |p|..j - |p| + 3];
        assert !OccursAt(s, "_v1", j - |p|);
      }
    }
  }

  /** Dropping the final `_v1` from an id in which no earlier `_v1` occurs. */
  lemma StripFinalV1(w: string)
    requires NoV1Before(w)
    ensures QuizTypeOf(w + "_v1") == w
  {
    var q := w + "_v1";
    assert q[|w|..|w| + 3] == "_v1";
    IndexOfIs(q, "_v1", |w|);
    assert q[..|w|] + "" + q[|w| + 3..] == w;
  }

  /** For a quiz id `x_y_v1` with `_`-free words the quiz type is `x_y`,
      unless `y` itself starts with "v1". */
  lemma TwoWordQuizType(x: string, y: string)
    requires '_' !in x && '_' !in y && !StartsWith(y, "v1")
    ensures QuizTypeOf(x + "_" + y + "_v1") == x + "_" + y
  {
    SingleWordNoV1(y);
    JoinedWordsNoV1(x, y);
    StripFinalV1(x + "_" + y);
  }

  /** A user id from registration always contains `_`, so the parsed user
      id of its token is just "user". */
  lemma RegisteredUserIdLost(quizId: string, x: string, y: string, email: string, t: int, now: nat, bytes: RandomBytes)
    requires QuizTypeOf(quizId) == x + "_" + y
    requires '_' !in x && '_' !in y
    ensures var p := ParseToken(Some(GenerateResultToken(quizId, Credentials.UserId(email, t), now, bytes)));
      p.Some? && p.value.userId == "user" && p.value.userId != Credentials.UserId(email, t)
  {
    var userId := Credentials.UserId(email, t);
    var rest := userId[5..];
    assert userId == "user" + "_" + rest by {
      Credentials.UserIdParts(email, t);
    }
    UserPrefixedIdLost(quizId, x, y, rest, now, bytes);
  }

  /** Helper: a user id of the form `user_…` parses back as "user". */
  lemma UserPrefixedIdLost(quizId: string, x: string, y: string, rest: string, now: nat, bytes: RandomBytes)
    requires QuizTypeOf(quizId) == x + "_" + y
    requires '_' !in x && '_' !in y
    ensures var p := ParseToken(Some(GenerateResultToken(quizId, "user" + "_" + rest, now, bytes)));
      p.Some? && p.value.userId == "user"
  {
    var token := GenerateResultToken(quizId, "user" + "_" + rest, now, bytes);
    assert token == x + "_" + y + "_" + ("user" + "_" + rest) + "_" + Timestamp(now) + "_" + RandomPart(bytes);
    assert '_' !in "user" by {
      assert "user" == ['u', 's', 'e', 'r'];
    }
    SplitOfWordToken(x, y, "user", rest, Timestamp(now), RandomPart(bytes));
    ParsedUserIdIsThirdPart(token);
  }

  /** A token whose user id starts with a `_`-free word and `_` has that
      word as its third part. */
  lemma SplitOfWordToken(x: string, y: string, w: string, rest: string, ts: string, rp: string)
    requires '_' !in x && '_' !in y && '_' !in w && '_' !in ts && '_' !in rp
    ensures var parts := Split(x + "_" + y + "_" + (w + "_" + rest) + "_" + ts + "_" + rp, '_');
      |parts| >= 4 && parts[2] == w
  {
    var m := Split(w + "_" + rest, '_');
    assert m[0] == w by {
      SplitWord(w, rest);
    }
    var t := x + "_" + y + "_" + (w + "_" + rest) + "_" + ts + "_" + rp;
    assert Split(t, '_') == [x, y] + m + [ts, rp] by {
      SplitToken(x, y, w + "_" + rest, ts, rp);
    }
    ThirdOfFramed(Split(t, '_'), x, y, m, ts, rp);
  }

  /** Helper: the third element of `[x, y] + m + [ts, rp]` is `m[0]`. */
  lemma ThirdOfFramed(parts: seq<string>, x: string, y: string, m: seq<string>, ts: string, rp: string)
    requires |m| >= 1 && parts == [x, y] + m + [ts, rp]
    ensures |parts| >= 4 && parts[2] == m[0]
  {
  }

  /** The user id `parseToken` reads is the third `_`-separated part. */
  lemma ParsedUserIdIsThirdPart(token: string)
    requires |Split(token, '_')| >= 4
    ensures ParseToken(Some(token)).Some? && ParseToken(Some(token)).value.userId == Split(token, '_')[2]
  {
    SplitLength(token, '_');
  }

  // ---------------------------------------------------------------------
  // Parsing from both ends
  // ---------------------------------------------------------------------

  /** The parse the documented format calls for: the quiz type is the first
      two parts, the timestamp and random part are the last two, and the
      user id is everything in between. With four or five parts it agrees
      with `ParseToken`. */
  function ParseTokenFromBothEnds(token: Option<string>): (r: Option<ParsedToken>)
    ensures r.Some? <==> ParseToken(token).Some?
    ensures r.Some? ==> r.value.quizType == ParseToken(token).value.quizType
    ensures r.Some? && |Split(token.value, '_')| <= 5 ==> r == ParseToken(token)
  {
    if token.None? || |token.value| == 0 then None
    else
      var parts := Split(token.value, '_');
      if |parts| < 4 then None
      else if |parts| == 4 then ParseToken(token)
      else
        var qt := parts[0] + "_" + parts[1];
        var n := |parts|;
        Some(ParsedToken(qt, Join(parts[2..n - 2], '_'), parts[n - 2], Some(parts[n - 1]), qt + "_v1"))
  }

  /** With the corrected parse, any non-empty user id comes back. */
  lemma GeneratedTokenParsesFromBothEnds(quizId: string, x: string, y: string, userId: string, now: nat, bytes: RandomBytes)
    requires QuizTypeOf(quizId) == x + "_" + y
    requires '_' !in x && '_' !in y
    ensures ParseTokenFromBothEnds(Some(GenerateResultToken(quizId, userId, now, bytes))) ==
      Some(ParsedToken(x + "_" + y, userId, Timestamp(now), Some(RandomPart(bytes)), x + "_" + y + "_v1"))
  {
    SplitToken(x, y, userId, Timestamp(now), RandomPart(bytes));
    var u := Split(userId, '_');
    var parts := [x, y] + u + [Timestamp(now), RandomPart(bytes)];
    assert parts[2..|parts| - 2] == u;
    JoinSplit(userId, '_');
  }

  /** The registered user's id, lost by `ParseToken`, survives the corrected parse. */
  lemma RegisteredUserIdKept(quizId: string, x: string, y: string, email: string, t: int, now: nat, bytes: RandomBytes)
    requires QuizTypeOf(quizId) == x + "_" + y
    requires '_' !in x && '_' !in y
    ensures var p := ParseTokenFromBothEnds(Some(GenerateResultToken(quizId, Credentials.UserId(email, t), now, bytes)));
      p.Some? && p.value.userId == Credentials.UserId(email, t)
  {
    GeneratedTokenParsesFromBothEnds(quizId, x, y, Credentials.UserId(email, t), now, bytes);
  }

  /** For a quiz id `x_y_z_v1` with `_`-free words the quiz type is `x_y_z`. */
  lemma ThreeWordQuizType(x: string, y: string, z: string)
    requires '_' !in x && '_' !in y && '_' !in z
    requires !StartsWith(y, "v1") && !StartsWith(z, "v1")
    ensures QuizTypeOf(x + "_" + y + "_" + z + "_v1") == x + "_" + y + "_" + z
  {
    var w := y + "_" + z;
    if |y| >= 2 {
      assert w[..2] == y[..2];
    } else if |w| >= 2 {
      assert w[..2][|y|] == '_';
    }
    SingleWordNoV1(z);
    JoinedWordsNoV1(y, z);
    JoinedWordsNoV1(x, w);
    StripFinalV1(x + "_" + w);
    assert x + "_" + w + "_v1" == x + "_" + y + "_" + z + "_v1";
  }

  /** A quiz id of three words, such as "pre_marriage_prep_v1", comes back
      from its token without its third word. */
  lemma ThreeWordQuizIdCut(x: string, y: string, z: string, userId: string, now: nat, bytes: RandomBytes)
    requires '_' !in x && '_' !in y && '_' !in z && '_' !in userId
    requires !StartsWith(y, "v1") && !StartsWith(z, "v1")
    ensures var p := ParseToken(Some(GenerateResultToken(x + "_" + y + "_" + z + "_v1", userId, now, bytes)));
      p.Some? && p.value.quizId == x + "_" + y + "_v1" && p.value.quizId != x + "_" + y + "_" + z + "_v1"
  {
    ThreeWordQuizType(x, y, z);
    var ts, rp := Timestamp(now), RandomPart(bytes);
    var mid := z + "_" + userId;
    SplitWord(z, userId);
    SplitNoSep(userId, '_');
    SplitToken(x, y, mid, ts, rp);
    ThreeWordAssoc(x, y, z, userId, ts, rp);
    var token := GenerateResultToken(x + "_" + y + "_" + z + "_v1", userId, now, bytes);
    assert Split(token, '_') == [x, y, z, userId, ts, rp];
    assert |x + "_" + y + "_v1"| < |x + "_" + y + "_" + z + "_v1"|;
  }

  /** Helper: regroups a three-word quiz type's token around its user id. */
  lemma ThreeWordAssoc(x: string, y: string, z: string, u: string, ts: string, rp: string)
    ensures (x + "_" + y + "_" + z) + "_" + u + "_" + ts + "_" + rp == x + "_" + y + "_" + (z + "_" + u) + "_" + ts + "_" + rp
  {
  }
}
