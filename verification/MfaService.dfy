/** The platform administrators' second-factor check: every attempt is limited per user and
    per address, separately for one-time and recovery codes. */
module MfaService {
  import opened Options
  import opened MfaLimiter
  import opened Whitespace

  datatype Kind = Totp | Recovery

  /** The two scopes an attempt counts against; `key` is the user's number or the address. */
  datatype Scope = Scope(kind: Kind, byAddress: bool, key: string)

  /** The configured values, with the default in place of one that is missing or zero. */
  datatype Settings = Settings(window: int, lock: int,
                               totpPerUser: int, totpPerAddress: int, recoveryPerUser: int, recoveryPerAddress: int)

  datatype Verdict = CodeRequired | Locked | Invalid | Accepted

  /** Which characters count as letters or digits, and what each is in upper case. */
  datatype Letters = Letters(alphanumeric: char -> bool, upper: char -> string)

  function AsciiLetters(): Letters {
    Letters(c => '0' <= c <= '9' || 'A' <= c <= 'Z' || 'a' <= c <= 'z',
            c => if 'a' <= c <= 'z' then [(c as int - 32) as char] else [c])
  }

  /** Letters and digits only, in upper case: how a code is read, however it is spelled. */
  function NormalizeCode(letters: Letters, code: string): string {
    if code == "" then ""
    else (if letters.alphanumeric(code[0]) then letters.upper(code[0]) else "") + NormalizeCode(letters, code[1..])
  }

  /** A code of eight or more characters is taken for a recovery code. */
  function KindOfCode(letters: Letters, code: string): Kind {
    if |NormalizeCode(letters, code)| >= 8 then Recovery else Totp
  }

  /** What is in upper case reads as itself; not so for all of Unicode. */
  ghost predicate Settled(letters: Letters) {
    forall c: char :: letters.alphanumeric(c) ==> NormalizeCode(letters, letters.upper(c)) == letters.upper(c)
  }

  lemma AsciiSettled()
    ensures Settled(AsciiLetters())
  {
    var letters := AsciiLetters();
    forall c: char | letters.alphanumeric(c) ensures NormalizeCode(letters, letters.upper(c)) == letters.upper(c) {
      assert letters.upper(c)[1..] == "";
    }
  }

  lemma {:induction false} PieceByPiece(letters: Letters, a: string, b: string)
    ensures NormalizeCode(letters, a + b) == NormalizeCode(letters, a) + NormalizeCode(letters, b)
  {
    if a == "" {
      assert a + b == b;
    } else {
      assert (a + b)[1..] == a[1..] + b;
      PieceByPiece(letters, a[1..], b);
    }
  }

  /** A code is read piece by piece, a letter or digit as it is in upper case and any other
      character not at all, wherever it stands; and where upper case reads as itself, a code as
      it was read reads the same. */
  lemma {:induction false} SpellingIsFree(letters: Letters, a: string, b: string)
    ensures NormalizeCode(letters, a + b) == NormalizeCode(letters, a) + NormalizeCode(letters, b)
    ensures |a| == 1 ==> NormalizeCode(letters, a) == if letters.alphanumeric(a[0]) then letters.upper(a[0]) else ""
    ensures Settled(letters) ==> NormalizeCode(letters, NormalizeCode(letters, a)) == NormalizeCode(letters, a)
  {
    PieceByPiece(letters, a, b);
    if a != "" {
      SpellingIsFree(letters, a[1..], b);
      PieceByPiece(letters, if letters.alphanumeric(a[0]) then letters.upper(a[0]) else "", NormalizeCode(letters, a[1..]));
    }
  }

  function Address(ip: Option<string>): string {
    var given := match ip case None => "unknown" case Some(s) => if s == "" then "unknown" else s;
    var stripped := Strip(given);
    var cut := if |stripped| > 64 then stripped[..64] else stripped;
    if cut == "" then "unknown" else cut
  }

  /** Never empty and never longer than 64 characters: what is given, without blanks around it,
      or "unknown" where nothing is. */
  lemma AddressExactly(ip: Option<string>)
    ensures var given := if ip.Some? then Strip(ip.value) else "";
      Address(ip) == if given == "" then "unknown" else if |given| <= 64 then given else given[..64]
  {
    var word := "unknown";
    assert Strip(word) == word;
  }

  function ScopePairs(user: string, ip: Option<string>, kind: Kind): seq<Scope> {
    [Scope(kind, false, user), Scope(kind, true, Address(ip))]
  }

  function LimitFor(s: Settings, scope: Scope): int {
    match scope.kind
    case Recovery => if scope.byAddress then s.recoveryPerAddress else s.recoveryPerUser
    case Totp => if scope.byAddress then s.totpPerAddress else s.totpPerUser
  }

  function PolicyFor(s: Settings, scope: Scope): Policy {
    SanePolicy(LimitFor(s, scope), s.window, s.lock)
  }

  function Lookup(rows: map<Scope, Row>, scope: Scope): Option<Row> {
    if scope in rows then Some(rows[scope]) else None
  }

  function History(counted: map<Scope, seq<int>>, scope: Scope): seq<int> {
    if scope in counted then counted[scope] else []
  }

  /** A stored row is what its scope's history says it should be. */
  ghost predicate Kept(p: Policy, row: Option<Row>, counted: seq<int>, clock: int) {
    && Refines(p, row, counted, clock)
    && (p.window <= p.lock ==> Limited(p, row, counted, false))
  }

  lemma RecordKeeps(p: Policy, row: Option<Row>, counted: seq<int>, clock: int, now: int)
    requires Sane(p) && clock <= now && Kept(p, row, counted, clock)
    ensures var (next, locked) := Record(row, p, now);
      && Kept(p, Some(next), CountedAfter(row, counted, now), now)
      && locked == Blocked(Some(next), now)
      && (Blocked(row, now) ==> row == Some(next) && locked)
  {
    RecordRefines(p, row, counted, clock, now);
    if p.window <= p.lock {
      RecordLimited(p, row, counted, false, clock, now);
    }
  }

  /** The table and the histories after one recorded failure. */
  function RecordIn(rows: map<Scope, Row>, scope: Scope, p: Policy, now: int): map<Scope, Row> {
    rows[scope := Record(Lookup(rows, scope), p, now).0]
  }

  lemma WrittenTwice(rows: map<Scope, Row>, scope: Scope, first: Row, second: Row)
    ensures rows[scope := first][scope := second] == rows[scope := second]
  {
  }

  function CountIn(rows: map<Scope, Row>, counted: map<Scope, seq<int>>, scope: Scope, now: int): map<Scope, seq<int>> {
    if Blocked(Lookup(rows, scope), now) then counted else counted[scope := History(counted, scope) + [now]]
  }

  function Forget(counted: map<Scope, seq<int>>, scopes: seq<Scope>): map<Scope, seq<int>> {
    counted - (set scope | scope in scopes)
  }

  function ResetIn(rows: map<Scope, Row>, scopes: seq<Scope>, now: int): map<Scope, Row> {
    map scope | scope in rows :: if scope in scopes then Reset(now) else rows[scope]
  }

  ghost predicate KeptAt(settings: Settings, rows: map<Scope, Row>, counted: map<Scope, seq<int>>, clock: int, scope: Scope) {
    Kept(PolicyFor(settings, scope), Lookup(rows, scope), History(counted, scope), clock)
  }

  /** Every scope's row is what its history says it should be. */
  ghost predicate AllKept(settings: Settings, rows: map<Scope, Row>, counted: map<Scope, seq<int>>, clock: int) {
    forall scope :: KeptAt(settings, rows, counted, clock, scope)
  }

  lemma RecordKeepsAll(settings: Settings, rows: map<Scope, Row>, counted: map<Scope, seq<int>>, clock: int,
                       scope: Scope, now: int)
    requires clock <= now && AllKept(settings, rows, counted, clock)
    ensures AllKept(settings, RecordIn(rows, scope, PolicyFor(settings, scope), now),
                    CountIn(rows, counted, scope, now), now)
    ensures Record(Lookup(rows, scope), PolicyFor(settings, scope), now).1
         == Blocked(Lookup(RecordIn(rows, scope, PolicyFor(settings, scope), now), scope), now)
  {
    var p := PolicyFor(settings, scope);
    var rows', counted' := RecordIn(rows, scope, p, now), CountIn(rows, counted, scope, now);
    assert KeptAt(settings, rows, counted, clock, scope);
    RecordKeeps(p, Lookup(rows, scope), History(counted, scope), clock, now);
    forall other ensures KeptAt(settings, rows', counted', now, other) {
      assert KeptAt(settings, rows, counted, clock, other);
      if other != scope {
        OtherKept(PolicyFor(settings, other), rows, rows', counted, counted', clock, now, other);
      }
    }
  }

  lemma OtherKept(p: Policy, rows: map<Scope, Row>, rows': map<Scope, Row>, counted: map<Scope, seq<int>>,
                  counted': map<Scope, seq<int>>, clock: int, now: int, other: Scope)
    requires clock <= now && Kept(p, Lookup(rows, other), History(counted, other), clock)
    requires Lookup(rows', other) == Lookup(rows, other) && History(counted', other) == History(counted, other)
    ensures Kept(p, Lookup(rows', other), History(counted', other), now)
  {
    KeptLater(p, Lookup(rows, other), History(counted, other), clock, now);
  }

  lemma KeptLater(p: Policy, row: Option<Row>, counted: seq<int>, clock: int, later: int)
    requires clock <= later && Kept(p, row, counted, clock)
    ensures Kept(p, row, counted, later)
  {
  }

  lemma ResetKeepsAll(settings: Settings, rows: map<Scope, Row>, counted: map<Scope, seq<int>>, clock: int,
                      scopes: seq<Scope>, now: int)
    requires clock <= now && AllKept(settings, rows, counted, clock)
    ensures AllKept(settings, ResetIn(rows, scopes, now), Forget(counted, scopes), now)
  {
    forall other ensures KeptAt(settings, ResetIn(rows, scopes, now), Forget(counted, scopes), now, other) {
      assert KeptAt(settings, rows, counted, clock, other);
      ResetRefines(PolicyFor(settings, other), now);
    }
  }

  /** What one counted failure leaves of a scope that was not locked.  Its window is the running
      one, or opens now; the row holds the failures since then; and from the limit of its own kind
      on it is locked for the lock time from now.  At least one failure is counted, so that a
      limit below one acts as one. */
  ghost predicate FailureCounted(s: Settings, scope: Scope, before: Option<Row>, after: Option<Row>, history: seq<int>,
                                 now: int) {
    var window, lock := if s.window < 1 then 1 else s.window, if s.lock < 1 then 1 else s.lock;
    && after.Some?
    && var row := after.value;
       var failures := Since(history, row.windowStart);
       && row.windowStart == (if before.Some? && now < before.value.windowStart + window then before.value.windowStart else now)
       && row.attempts == failures && 1 <= failures
       && (row.blockedUntil == None || row.blockedUntil == Some(now + lock))
       && (scope.kind == Totp && !scope.byAddress ==> (row.blockedUntil.Some? <==> s.totpPerUser <= failures))
       && (scope.kind == Totp && scope.byAddress ==> (row.blockedUntil.Some? <==> s.totpPerAddress <= failures))
       && (scope.kind == Recovery && !scope.byAddress ==> (row.blockedUntil.Some? <==> s.recoveryPerUser <= failures))
       && (scope.kind == Recovery && scope.byAddress ==> (row.blockedUntil.Some? <==> s.recoveryPerAddress <= failures))
  }

  /** The failure is counted for two scopes, the user's and the address's of one kind, and for no other. */
  ghost predicate CountedForBoth(s: Settings, kind: Kind, user: string, address: string, now: int,
                                 rows: map<Scope, Row>, rows': map<Scope, Row>,
                                 counted: map<Scope, seq<int>>, counted': map<Scope, seq<int>>) {
    forall scope :: if scope == Scope(kind, false, user) || scope == Scope(kind, true, address)
                    then History(counted', scope) == History(counted, scope) + [now]
                         && FailureCounted(s, scope, Lookup(rows, scope), Lookup(rows', scope), History(counted', scope), now)
                    else Lookup(rows', scope) == Lookup(rows, scope) && History(counted', scope) == History(counted, scope)
  }

  /** All four scopes of the user and the address start anew, and no other. */
  ghost predicate StartedAnew(user: string, address: string, now: int, rows: map<Scope, Row>, rows': map<Scope, Row>,
                              counted: map<Scope, seq<int>>, counted': map<Scope, seq<int>>) {
    forall scope: Scope :: if scope.key == (if scope.byAddress then address else user)
                           then History(counted', scope) == []
                                && Lookup(rows', scope) == (if scope in rows then Some(Row(0, now, None)) else None)
                           else Lookup(rows', scope) == Lookup(rows, scope) && History(counted', scope) == History(counted, scope)
  }

  lemma AllFourStartAnew(user: string, ip: Option<string>, now: int, rows: map<Scope, Row>, counted: map<Scope, seq<int>>)
    ensures var scopes := ScopePairs(user, ip, Totp) + ScopePairs(user, ip, Recovery);
      StartedAnew(user, Address(ip), now, rows, ResetIn(rows, scopes, now), counted, Forget(counted, scopes))
  {
    var scopes := ScopePairs(user, ip, Totp) + ScopePairs(user, ip, Recovery);
    assert scopes == [Scope(Totp, false, user), Scope(Totp, true, Address(ip)),
                      Scope(Recovery, false, user), Scope(Recovery, true, Address(ip))];
    forall scope: Scope ensures scope in scopes <==> scope.key == (if scope.byAddress then Address(ip) else user) {
      var at := (if scope.kind == Totp then 0 else 2) + (if scope.byAddress then 1 else 0);
      assert scope == Scope(scope.kind, scope.byAddress, scope.key);
      assert scopes[at] == Scope(scope.kind, scope.byAddress, if scope.byAddress then Address(ip) else user);
    }
  }

  lemma CountedExactly(settings: Settings, rows: map<Scope, Row>, counted: map<Scope, seq<int>>, clock: int,
                       scope: Scope, now: int)
    requires clock <= now && AllKept(settings, rows, counted, clock) && !Blocked(Lookup(rows, scope), now)
    ensures FailureCounted(settings, scope, Lookup(rows, scope),
                           Lookup(RecordIn(rows, scope, PolicyFor(settings, scope), now), scope),
                           History(CountIn(rows, counted, scope, now), scope), now)
  {
    var p := PolicyFor(settings, scope);
    assert KeptAt(settings, rows, counted, clock, scope);
    RecordRefines(p, Lookup(rows, scope), History(counted, scope), clock, now);
    SinceAppend(History(counted, scope), now, Record(Lookup(rows, scope), p, now).0.windowStart);
  }

  /** All that one recorded failure means. */
  lemma RecordStep(s: Settings, rows: map<Scope, Row>, counted: map<Scope, seq<int>>, clock: int, scope: Scope, now: int,
                   rows': map<Scope, Row>, counted': map<Scope, seq<int>>)
    requires clock <= now && AllKept(s, rows, counted, clock)
    requires rows' == RecordIn(rows, scope, PolicyFor(s, scope), now) && counted' == CountIn(rows, counted, scope, now)
    ensures AllKept(s, rows', counted', now)
    ensures Record(Lookup(rows, scope), PolicyFor(s, scope), now).1 == Blocked(Lookup(rows', scope), now)
    ensures if Blocked(Lookup(rows, scope), now) then rows' == rows && counted' == counted
            else FailureCounted(s, scope, Lookup(rows, scope), Lookup(rows', scope), History(counted', scope), now)
  {
    RecordKeepsAll(s, rows, counted, clock, scope, now);
    if !Blocked(Lookup(rows, scope), now) {
      CountedExactly(s, rows, counted, clock, scope, now);
    }
  }

  /** Two failures recorded one after the other, neither scope being locked. */
  lemma BothCounted(s: Settings, kind: Kind, user: string, address: string, clock: int, now: int,
                    rows: map<Scope, Row>, counted: map<Scope, seq<int>>)
    requires clock <= now && AllKept(s, rows, counted, clock)
    requires !Blocked(Lookup(rows, Scope(kind, false, user)), now) && !Blocked(Lookup(rows, Scope(kind, true, address)), now)
    ensures var u, a := Scope(kind, false, user), Scope(kind, true, address);
            var rows', counted' := RecordIn(rows, u, PolicyFor(s, u), now), CountIn(rows, counted, u, now);
      CountedForBoth(s, kind, user, address, now, rows, RecordIn(rows', a, PolicyFor(s, a), now),
                     counted, CountIn(rows', counted', a, now))
  {
    var u, a := Scope(kind, false, user), Scope(kind, true, address);
    var rows', counted' := RecordIn(rows, u, PolicyFor(s, u), now), CountIn(rows, counted, u, now);
    CountedExactly(s, rows, counted, clock, u, now);
    RecordKeepsAll(s, rows, counted, clock, u, now);
    CountedExactly(s, rows', counted', now, a, now);
  }

  class PlatformAdminMfa {
    const settings: Settings
    const letters: Letters
    var rows: map<Scope, Row>
    /** The failures counted per scope since its last reset. */
    ghost var counted: map<Scope, seq<int>>
    ghost var clock: int

    ghost predicate Valid()
      reads this
    {
      AllKept(settings, rows, counted, clock)
    }

    constructor (settings: Settings, letters: Letters, now: int)
      ensures Valid() && this.settings == settings && this.letters == letters && clock == now && rows == map[] && counted == map[]
    {
      this.settings, this.letters := settings, letters;
      rows, counted, clock := map[], map[], now;
    }

    method IsScopeBlocked(scope: Scope, now: int) returns (blocked: bool)
      ensures blocked == Blocked(Lookup(rows, scope), now)
      ensures blocked <==> scope in rows && rows[scope].blockedUntil.Some? && now < rows[scope].blockedUntil.value
    {
      if scope !in rows {
        return false;
      }
      var until := rows[scope].blockedUntil;
      blocked := until.Some? && until.value > now;
    }

    /** Counts a failure; while the scope is locked counter and window stay as they are. */
    method RecordFailedAttempt(scope: Scope, now: int) returns (blockedNow: bool)
      requires Valid() && clock <= now
      modifies this
      ensures Valid() && clock == now
      ensures rows == RecordIn(old(rows), scope, PolicyFor(settings, scope), now)
      ensures counted == CountIn(old(rows), old(counted), scope, now)
      ensures blockedNow == Blocked(Lookup(rows, scope), now)
      ensures old(Blocked(Lookup(rows, scope), now)) ==> rows == old(rows) && counted == old(counted)
      ensures !old(Blocked(Lookup(rows, scope), now)) ==>
                FailureCounted(settings, scope, old(Lookup(rows, scope)), Lookup(rows, scope), History(counted, scope), now)
    {
      var p := PolicyFor(settings, scope);
      RecordStep(settings, rows, counted, clock, scope, now, RecordIn(rows, scope, p, now), CountIn(rows, counted, scope, now));
      counted := CountIn(rows, counted, scope, now);
      clock := now;
      if scope !in rows {
        rows := rows[scope := Row(0, now, None)];
      }
      var row;
      row, blockedNow := NextRow(rows[scope], p, now);
      rows := rows[scope := row];
      WrittenTwice(old(rows), scope, Row(0, now, None), row);
    }

    method NextRow(found: Row, p: Policy, now: int) returns (row: Row, blockedNow: bool)
      ensures (row, blockedNow) == Record(Some(found), p, now)
    {
      row := found;
      if row.blockedUntil.Some? && row.blockedUntil.value > now {
        return row, true;
      }
      if !(now >= row.windowStart + p.window) {
        row := row.(attempts := row.attempts + 1);
      } else {
        row := row.(attempts := 1, windowStart := now);
      }
      blockedNow := row.attempts >= p.limit;
      row := row.(blockedUntil := if blockedNow then Some(now + p.lock) else None);
    }

    method ResetAttempts(scopes: seq<Scope>, now: int)
      requires Valid() && clock <= now
      modifies this
      ensures Valid() && clock == now
      ensures rows == ResetIn(old(rows), scopes, now)
      ensures counted == Forget(old(counted), scopes)
    {
      for i := 0 to |scopes|
        invariant rows == ResetIn(old(rows), scopes[..i], now)
        invariant counted == old(counted) && clock == old(clock)
      {
        assert scopes[..i + 1] == scopes[..i] + [scopes[i]];
        if scopes[i] in rows {
          rows := rows[scopes[i] := Row(0, now, None)];
        }
      }
      assert scopes[..|scopes|] == scopes;
      ResetKeepsAll(settings, old(rows), counted, clock, scopes, now);
      counted := Forget(counted, scopes);
      clock := now;
    }

    method ResetUserAttempts(user: string, ip: Option<string>, now: int)
      requires Valid() && clock <= now
      modifies this
      ensures Valid() && clock == now
      ensures StartedAnew(user, Address(ip), now, old(rows), rows, old(counted), counted)
    {
      AllFourStartAnew(user, ip, now, rows, counted);
      ResetAttempts(ScopePairs(user, ip, Totp) + ScopePairs(user, ip, Recovery), now);
    }

    /** Raised as "locked" when either scope of the attempt is locked. */
    method EnsureNotBlocked(user: string, ip: Option<string>, kind: Kind, now: int) returns (ok: bool)
      ensures ok <==> forall scope :: scope in ScopePairs(user, ip, kind) ==> !Blocked(Lookup(rows, scope), now)
    {
      var pairs := ScopePairs(user, ip, kind);
      for i := 0 to |pairs|
        invariant forall j :: 0 <= j < i ==> !Blocked(Lookup(rows, pairs[j]), now)
      {
        var blocked := IsScopeBlocked(pairs[i], now);
        if blocked {
          return false;
        }
      }
      ok := true;
    }

    /** Counts the failure for the user and for the address, whichever of them locks. */
    method RecordFailure(user: string, ip: Option<string>, kind: Kind, now: int) returns (blockedNow: bool)
      requires Valid() && clock <= now
      modifies this
      ensures Valid() && clock == now
      ensures var u, a := Scope(kind, false, user), Scope(kind, true, Address(ip));
        && rows == RecordIn(RecordIn(old(rows), u, PolicyFor(settings, u), now), a, PolicyFor(settings, a), now)
        && counted == CountIn(old(rows), CountIn(old(rows), old(counted), u, now), a, now)
        && (blockedNow <==> Blocked(Lookup(rows, u), now) || Blocked(Lookup(rows, a), now))
      ensures old(!Blocked(Lookup(rows, Scope(kind, false, user)), now)
                  && !Blocked(Lookup(rows, Scope(kind, true, Address(ip))), now)) ==>
                CountedForBoth(settings, kind, user, Address(ip), now, old(rows), rows, old(counted), counted)
    {
      var pairs := ScopePairs(user, ip, kind);
      if !Blocked(Lookup(rows, pairs[0]), now) && !Blocked(Lookup(rows, pairs[1]), now) {
        BothCounted(settings, kind, user, Address(ip), clock, now, rows, counted);
      }
      var first := RecordFailedAttempt(pairs[0], now);
      var second := RecordFailedAttempt(pairs[1], now);
      blockedNow := first || second;
    }

    /** The second-factor step of a login.  `codeMatches` is what checking the code would say;
        `checked` tells whether it was checked at all. */
    method Login(user: string, ip: Option<string>, code: string, codeMatches: bool, now: int)
        returns (verdict: Verdict, checked: bool)
      requires Valid() && clock <= now
      modifies this
      ensures Valid()
      ensures var read := NormalizeCode(letters, code);
              var kind := if |read| >= 8 then Recovery else Totp;
              var u, a := Scope(kind, false, user), Scope(kind, true, Address(ip));
        && (checked <==> read != "" && !old(Blocked(Lookup(rows, u), now)) && !old(Blocked(Lookup(rows, a), now)))
        && (verdict == CodeRequired <==> read == "")
        && (verdict == Accepted <==> checked && codeMatches)
        && (verdict == Invalid <==> checked && !codeMatches && !Blocked(Lookup(rows, u), now) && !Blocked(Lookup(rows, a), now))
      ensures !checked ==> rows == old(rows) && counted == old(counted)
      ensures checked && !codeMatches ==>
                CountedForBoth(settings, if |NormalizeCode(letters, code)| >= 8 then Recovery else Totp, user, Address(ip), now,
                               old(rows), rows, old(counted), counted)
      ensures verdict == Accepted ==> StartedAnew(user, Address(ip), now, old(rows), rows, old(counted), counted)
    {
      checked := false;
      if NormalizeCode(letters, code) == "" {
        return CodeRequired, false;
      }
      var kind := KindOfCode(letters, code);
      assert ScopePairs(user, ip, kind) == [Scope(kind, false, user), Scope(kind, true, Address(ip))];
      var ok := EnsureNotBlocked(user, ip, kind, now);
      if !ok {
        return Locked, false;
      }
      checked := true;
      if codeMatches {
        ResetUserAttempts(user, ip, now);
        return Accepted, true;
      }
      var blockedNow := RecordFailure(user, ip, kind, now);
      verdict := if blockedNow then Locked else Invalid;
    }
  }

  /** What the invariant means for every scope with a row: the stored counter is the number of
      failures counted since the window opened, the scope is locked for the lock time after
      the last of them exactly when the counter has reached the limit of its own kind, and with a
      lock at least as long as the window no window-long stretch holds more than 2 * limit - 1. */
  lemma AllKeptMeans(s: Settings, rows: map<Scope, Row>, counted: map<Scope, seq<int>>, clock: int, scope: Scope, a: int)
    requires AllKept(s, rows, counted, clock) && scope in rows
    ensures var row, history := rows[scope], History(counted, scope);
            var given := if scope == Scope(Totp, false, scope.key) then s.totpPerUser
                         else if scope == Scope(Totp, true, scope.key) then s.totpPerAddress
                         else if scope == Scope(Recovery, false, scope.key) then s.recoveryPerUser
                         else s.recoveryPerAddress;
            var limit := if given < 1 then 1 else given;
            var window, lock := if s.window < 1 then 1 else s.window, if s.lock < 1 then 1 else s.lock;
      && row.attempts == Since(history, row.windowStart)
      && (row.blockedUntil.Some? <==> row.attempts >= limit)
      && (row.blockedUntil.Some? ==> history != [] && row.blockedUntil.value == history[|history| - 1] + lock)
      && (window <= lock ==> Within(history, a, window) <= 2 * limit - 1)
  {
    assert KeptAt(s, rows, counted, clock, scope);
  }
}
