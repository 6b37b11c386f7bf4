/**
 * The registration gate (models/partner.py): a candidate's registration is
 * pending until an admin approves it, which assigns a registration code
 * `SVK-{CIG01|CIG02}-{sequence}-{YYMMDD}`, or rejects it, which needs a note.
 */
module Registration {
  import opened Wrappers
  import opened Decimal

  datatype RegistrationState = NotCandidate | Pending | Approved | Rejected
  datatype Level = Level1 | Level2
  datatype CertType = NewCert | Recert

  /** A calendar date, as `fields.Date.today()` gives it. */
  datatype Date = Date(year: nat, month: nat, day: nat)

  predicate ValidDate(d: Date)
  {
    1 <= d.month <= 12 && 1 <= d.day <= 31
  }

  /** The registration fields of a `res.partner` record. */
  datatype Partner = Partner(
    id: nat,
    state: RegistrationState,
    code: Option<string>,
    pendingType: Option<CertType>,
    pendingLevel: Option<Level>,
    note: Option<string>,
    approvedBy: Option<nat>,
    approvedDate: Option<int>)

  /** An unset level counts as level 1. */
  function EffectiveLevel(pending: Option<Level>): (l: Level)
    ensures pending.None? ==> l == Level1
    ensures pending.Some? ==> l == pending.value
  {
    pending.GetOr(Level1)
  }

  /** The scheme owner's mark every code starts with. */
  const Issuer: string := "SVK-"
  const Level1Code: string := "CIG01"
  const Level2Code: string := "CIG02"

  /** The level part of a code: coating inspector grade 01 or 02. */
  function LevelCode(l: Level): string
  {
    if l == Level1 then Level1Code else Level2Code
  }

  /** `strftime('%y%m%d')`. */
  function DateStr(d: Date): (s: string)
    requires ValidDate(d)
    ensures |s| == 6 && AllDigits(s)
  {
    Pad2(d.year % 100) + Pad2(d.month) + Pad2(d.day)
  }

  /** The six date digits are the year of the century, the month and the day, two digits each. */
  lemma DateStrFields(d: Date)
    requires ValidDate(d)
    ensures var s := DateStr(d);
      Value(s[..2]) == d.year % 100 && Value(s[2..4]) == d.month && Value(s[4..]) == d.day
  {
    var yy, mm, dd := Pad2(d.year % 100), Pad2(d.month), Pad2(d.day);
    assert DateStr(d)[..2] == yy && DateStr(d)[2..4] == mm && DateStr(d)[4..] == dd;
  }

  /** What every code of a level starts with; the fallback counts codes that contain it. */
  function CodePrefix(l: Level): string
  {
    Issuer + LevelCode(l) + "-"
  }

  function FormatCode(l: Level, sequence: string, d: Date): string
    requires ValidDate(d)
  {
    CodePrefix(l) + sequence + "-" + DateStr(d)
  }

  /** The parts a registration code is read back into. */
  datatype CodeParts = CodeParts(level: Level, sequence: string, date: string)

  /** Reads a registration code: `SVK-`, a level code, a digit sequence and six date digits. */
  function ParseCode(code: string): (r: Option<CodeParts>)
    ensures r.Some? ==> |r.value.sequence| >= 1 && AllDigits(r.value.sequence)
    ensures r.Some? ==> |r.value.date| == 6 && AllDigits(r.value.date)
    ensures r.Some? ==> |code| >= 10 && code[..10] == CodePrefix(r.value.level)
  {
    if |code| < 18 || code[..4] != Issuer || code[9] != '-' || code[|code| - 7] != '-' then None
    else
      var lc := code[4..9];
      var sq := code[10..|code| - 7];
      var dt := code[|code| - 6..];
      if (lc == LevelCode(Level1) || lc == LevelCode(Level2)) && AllDigits(sq) && AllDigits(dt) then
        Some(CodeParts(if lc == LevelCode(Level1) then Level1 else Level2, sq, dt))
      else None
  }

  /** A code says its level, its sequence and its date, and reads back to them. */
  lemma ParseFormatCode(l: Level, sequence: string, d: Date)
    requires ValidDate(d) && |sequence| >= 1 && AllDigits(sequence)
    ensures ParseCode(FormatCode(l, sequence, d)) == Some(CodeParts(l, sequence, DateStr(d)))
  {
    var code := FormatCode(l, sequence, d);
    var n := |code|;
    assert n == 17 + |sequence|;
    assert code[..4] == Issuer;
    assert code[4..9] == LevelCode(l);
    assert code[9] == '-';
    assert code[10..n - 7] == sequence;
    assert code[n - 7] == '-';
    assert code[n - 6..] == DateStr(d);
  }

  /** A well-formed code of level `l` issued on date `d`. */
  predicate IsCodeFor(code: string, l: Level, d: Date)
    requires ValidDate(d)
  {
    ParseCode(code).Some? && ParseCode(code).value.level == l && ParseCode(code).value.date == DateStr(d)
  }

  predicate HasPrefix(s: string, prefix: string)
  {
    |prefix| <= |s| && s[..|prefix|] == prefix
  }

  /** Whether `pattern` occurs somewhere in `s`. */
  predicate Contains(s: string, pattern: string)
    decreases |s|
  {
    HasPrefix(s, pattern) || (s != [] && Contains(s[1..], pattern))
  }

  /** `pattern` occurs in `s` starting at position `j`. */
  predicate OccursAt(s: string, pattern: string, j: nat)
  {
    j + |pattern| <= |s| && s[j..j + |pattern|] == pattern
  }

  lemma {:induction false} ContainsWitness(s: string, pattern: string) returns (j: nat)
    requires Contains(s, pattern)
    ensures OccursAt(s, pattern, j)
    decreases |s|
  {
    if HasPrefix(s, pattern) {
      j := 0;
    } else {
      var j' := ContainsWitness(s[1..], pattern);
      assert s[j' + 1..j' + 1 + |pattern|] == s[1..][j'..j' + |pattern|];
      j := j' + 1;
    }
  }

  lemma {:induction false} ContainsFromWitness(s: string, pattern: string, j: nat)
    requires OccursAt(s, pattern, j)
    ensures Contains(s, pattern)
    decreases j
  {
    if j > 0 {
      assert s[1..][j - 1..j - 1 + |pattern|] == s[j..j + |pattern|];
      ContainsFromWitness(s[1..], pattern, j - 1);
    }
  }

  /** `Contains` finds exactly the strings in which `pattern` starts at some position. */
  lemma ContainsAt(s: string, pattern: string)
    ensures Contains(s, pattern) <==> exists j: nat :: OccursAt(s, pattern, j)
  {
    if Contains(s, pattern) {
      var j := ContainsWitness(s, pattern);
    } else if exists j: nat :: OccursAt(s, pattern, j) {
      var j: nat :| OccursAt(s, pattern, j);
      ContainsFromWitness(s, pattern, j);
    }
  }

  /**
   * `search_count([('registration_code', 'like', pattern)])`: Odoo's `like`
   * matches the pattern anywhere in the value, and an unset code never matches.
   */
  function CountContaining(ps: seq<Partner>, pattern: string): (n: nat)
    ensures n <= |ps|
  {
    if ps == [] then 0
    else (if CodeContains(ps[0], pattern) then 1 else 0) + CountContaining(ps[1..], pattern)
  }

  /** The partner has a code and `pattern` occurs in it. */
  predicate CodeContains(p: Partner, pattern: string)
  {
    p.code.Some? && Contains(p.code.value, pattern)
  }

  /** Rewriting one partner changes the count by what that partner contributed before and after. */
  lemma {:induction false} CountContainingUpdate(ps: seq<Partner>, i: nat, p: Partner, pattern: string)
    requires i < |ps|
    ensures CountContaining(ps[i := p], pattern) + (if CodeContains(ps[i], pattern) then 1 else 0)
            == CountContaining(ps, pattern) + (if CodeContains(p, pattern) then 1 else 0)
  {
    if i == 0 {
      assert ps[i := p][1..] == ps[1..];
    } else {
      assert ps[i := p][1..] == ps[1..][i - 1 := p];
      CountContainingUpdate(ps[1..], i - 1, p, pattern);
    }
  }

  /** After the first character, a code of any level holds no `S`: only digits, dashes and `VK-CIG0x`. */
  /** Every character is a digit or the `-` separator. */
  predicate DigitsOrDash(s: string)
  {
    forall i :: 0 <= i < |s| ==> IsDigit(s[i]) || s[i] == '-'
  }

  /** After a level prefix, a code holds only digits and separators. */
  lemma CodeTailDigitsOrDash(sequence: string, date: string)
    requires AllDigits(sequence) && AllDigits(date)
    ensures DigitsOrDash(sequence + "-" + date)
  {
    var rest := sequence + "-" + date;
    forall i | 0 <= i < |rest|
      ensures IsDigit(rest[i]) || rest[i] == '-'
    {
      if i < |sequence| {
        assert rest[i] == sequence[i];
      } else if i > |sequence| {
        assert rest[i] == date[i - |sequence| - 1];
      }
    }
  }

  /** A level prefix followed by digits and separators holds `S` only at its start. */
  lemma NoIssuerAfterPrefix(prefix: string, rest: string, k: nat)
    requires prefix == "SVK-CIG01-" || prefix == "SVK-CIG02-"
    requires DigitsOrDash(rest) && 1 <= k < |prefix + rest|
    ensures (prefix + rest)[k] != 'S'
  {
    if k >= |prefix| {
      assert (prefix + rest)[k] == rest[k - |prefix|];
    }
  }

  /** A code holds the issuer's `S` only as its first character. */
  lemma NoIssuerAfterStart(l: Level, sequence: string, d: Date, k: nat)
    requires ValidDate(d) && AllDigits(sequence) && 1 <= k < |FormatCode(l, sequence, d)|
    ensures FormatCode(l, sequence, d)[k] != 'S'
  {
    var rest := sequence + "-" + DateStr(d);
    CodeTailDigitsOrDash(sequence, DateStr(d));
    assert CodePrefix(l) == "SVK-CIG01-" || CodePrefix(l) == "SVK-CIG02-";
    assert FormatCode(l, sequence, d) == CodePrefix(l) + rest;
    NoIssuerAfterPrefix(CodePrefix(l), rest, k);
  }

  /** A code contains the prefix of a level exactly when it is a code of that level. */
  lemma CodeContainsOwnPrefixOnly(l: Level, l': Level, sequence: string, d: Date)
    requires ValidDate(d) && AllDigits(sequence)
    ensures Contains(FormatCode(l', sequence, d), CodePrefix(l)) <==> l == l'
  {
    var code := FormatCode(l', sequence, d);
    var prefix := CodePrefix(l);
    assert code[..10] == CodePrefix(l');
    if l != l' {
      assert prefix[8] != code[8];
      ContainsAt(code, prefix);
      if Contains(code, prefix) {
        var j: nat :| OccursAt(code, prefix, j);
        assert code[j] == prefix[0] == 'S';
        if j > 0 {
          NoIssuerAfterStart(l', sequence, d, j);
        }
        assert false;
      }
    }
  }

  /** A code issued under another scheme that embeds a level-1 code. */
  const EmbeddingCode: string := "OLD-SVK-CIG01-0003-250101"

  /** The fallback also counts a code that holds the level's prefix after other text. */
  lemma FallbackCountsEmbeddedPrefix(p: Partner)
    requires p.code == Some(EmbeddingCode)
    ensures CountContaining([p], CodePrefix(Level1)) == 1
  {
    var prefix := CodePrefix(Level1);
    assert prefix == "SVK-CIG01-";
    assert EmbeddingCode == "OLD-" + prefix + "0003-250101";
    assert EmbeddingCode[4..4 + |prefix|] == prefix;
    ContainsFromWitness(EmbeddingCode, CodePrefix(Level1), 4);
  }

  /** The fallback sequence: the number of codes of the level plus one, padded to four digits. */
  function FallbackSequence(ps: seq<Partner>, l: Level): (s: string)
    ensures |s| >= 4 && AllDigits(s) && Value(s) == CountContaining(ps, CodePrefix(l)) + 1
  {
    var n := CountContaining(ps, CodePrefix(l)) + 1;
    NatToStringValue(n);
    ZFillValue(NatToString(n), 4);
    ZFill(NatToString(n), 4)
  }

  /** The number a level's sequence hands out, spelled with four digits at least. */
  function CounterSequence(n: nat): (s: string)
    ensures |s| >= 4 && AllDigits(s) && Value(s) == n
  {
    NatToStringValue(n);
    ZFillValue(NatToString(n), 4);
    ZFill(NatToString(n), 4)
  }

  /** `s` is `str(n).zfill(4)`: zeros, then the digits of `n`, four characters at least and no more than needed. */
  predicate ZeroPaddedTo4(s: string, n: nat)
  {
    var d := NatToString(n);
    && |s| == (if |d| < 4 then 4 else |d|)
    && (forall i :: 0 <= i < |s| - |d| ==> s[i] == '0')
    && s[|s| - |d|..] == d
  }

  /** A counter's number is written with exactly four digits, or with its own digits when it has more. */
  lemma CounterSequencePadded(n: nat)
    ensures ZeroPaddedTo4(CounterSequence(n), n)
  {
  }

  /** The fallback count plus one is written the same way. */
  lemma FallbackSequencePadded(ps: seq<Partner>, l: Level)
    ensures ZeroPaddedTo4(FallbackSequence(ps, l), CountContaining(ps, CodePrefix(l)) + 1)
  {
  }

  lemma {:induction false} FirstSequence()
    ensures CounterSequence(1) == "0001"
  {
    assert NatToString(1) == "1";
    assert Zeros(3) == "000";
  }

  lemma {:induction false} TwoDigits(n: nat, tens: char, units: char)
    requires 10 <= n < 100 && tens == DigitChar(n / 10) && units == DigitChar(n % 10)
    ensures Pad2(n) == [tens, units]
  {
    assert NatToString(n / 10) == [tens];
    assert NatToString(n) == [tens, units];
  }

  lemma {:induction false} FirstDate()
    ensures DateStr(Date(2026, 10, 15)) == "261015"
  {
    TwoDigits(26, '2', '6');
    TwoDigits(10, '1', '0');
    TwoDigits(15, '1', '5');
  }

  /** The first level-1 code issued on 15 October 2026 reads `SVK-CIG01-0001-261015`. */
  lemma FirstLevel1Code()
    ensures FormatCode(Level1, CounterSequence(1), Date(2026, 10, 15)) == "SVK-CIG01-0001-261015"
  {
    FirstSequence();
    FirstDate();
    assert CodePrefix(Level1) == "SVK-CIG01-";
    assert "SVK-CIG01-" + "0001" + "-" + "261015" == "SVK-CIG01-0001-261015";
  }

  /** An empty admin note (unset or the empty string). */
  predicate NoteEmpty(note: Option<string>)
  {
    note.None? || note.value == ""
  }

  /** How approval rewrites one pending partner; nothing but these four fields changes. */
  ghost predicate ApprovedFrom(before: Partner, after: Partner, user: nat, now: int, today: Date)
    requires ValidDate(today)
  {
    && after.state == Approved
    && after.code.Some? && IsCodeFor(after.code.value, EffectiveLevel(before.pendingLevel), today)
    && after.approvedBy == Some(user) && after.approvedDate == Some(now)
    && after == before.(state := Approved, code := after.code, approvedBy := Some(user), approvedDate := Some(now))
  }

  /**
   * After approval has visited the positions in `visited`: partners outside
   * it are untouched, visited partners that were not pending are untouched,
   * and visited partners that were pending are approved from their old record.
   */
  ghost predicate ApprovedSoFar(before: seq<Partner>, after: seq<Partner>, visited: seq<nat>,
                                user: nat, now: int, today: Date)
    requires ValidDate(today)
  {
    && |after| == |before|
    && (forall i :: 0 <= i < |after| && i !in visited ==> after[i] == before[i])
    && (forall i :: 0 <= i < |after| && i in visited && before[i].state != Pending ==> after[i] == before[i])
    && (forall i :: 0 <= i < |after| && i in visited && before[i].state == Pending ==>
          ApprovedFrom(before[i], after[i], user, now, today))
  }

  /** The visited partners that were pending and whose notification fails. */
  ghost function MailWarned(before: seq<Partner>, visited: seq<nat>, mailFailures: set<nat>): set<nat>
  {
    set i | i in mailFailures && i in visited && 0 <= i < |before| && before[i].state == Pending
  }

  /**
   * Visiting one more position keeps `ApprovedSoFar`, whether or not that
   * partner is (still) pending; it is pending exactly when it was pending
   * before approval started and has not been visited yet.
   */
  lemma ApproveStep(before: seq<Partner>, cur: seq<Partner>, next: seq<Partner>, visited: seq<nat>, i: nat,
                    user: nat, now: int, today: Date)
    requires ValidDate(today) && i < |cur|
    requires ApprovedSoFar(before, cur, visited, user, now, today)
    requires cur[i].state != Pending ==> next == cur
    requires cur[i].state == Pending ==>
               && |next| == |cur|
               && (forall j :: 0 <= j < |next| && j != i ==> next[j] == cur[j])
               && ApprovedFrom(cur[i], next[i], user, now, today)
    ensures cur[i].state == Pending <==> before[i].state == Pending && i !in visited
    ensures ApprovedSoFar(before, next, visited + [i], user, now, today)
  {
    if cur[i].state == Pending {
      assert i !in visited;
    }
  }

  /** A visit adds a partner to the warned ones exactly when it is approved now and its notification fails. */
  lemma MailStep(before: seq<Partner>, visited: seq<nat>, i: nat, pendingNow: bool, mailFailures: set<nat>,
                 warned: set<nat>)
    requires i < |before|
    requires pendingNow <==> before[i].state == Pending && i !in visited
    requires warned == MailWarned(before, visited, mailFailures)
    ensures MailWarned(before, visited + [i], mailFailures) ==
              if pendingNow && i in mailFailures then warned + {i} else warned
  {
  }

  /** The sequence number a partner's code carries, or -1 without a readable code. */
  ghost function SequenceNumber(p: Partner): int
  {
    if p.code.Some? && ParseCode(p.code.value).Some? then Value(ParseCode(p.code.value).value.sequence) else -1
  }

  /** How many of the visited positions were pending at their first visit and are of level `l`. */
  ghost function IssuedCount(before: seq<Partner>, visited: seq<nat>, l: Level): nat
  {
    if visited == [] then 0
    else
      var rest := visited[..|visited| - 1];
      var i := visited[|visited| - 1];
      IssuedCount(before, rest, l)
        + (if i < |before| && before[i].state == Pending && i !in rest && EffectiveLevel(before[i].pendingLevel) == l
           then 1 else 0)
  }

  /** Position `i` was visited, was pending, and its level has a sequence. */
  ghost predicate FromSequence(before: seq<Partner>, visited: seq<nat>, c0: map<Level, nat>, i: int)
  {
    0 <= i < |before| && i in visited && before[i].state == Pending && EffectiveLevel(before[i].pendingLevel) in c0
  }

  /**
   * After approval has visited `visited`, starting from the sequences `c0`:
   * no sequence was added or dropped, each advanced once per partner of its
   * level approved, and the approved partners of a level with a sequence carry
   * distinct numbers handed out by it.
   */
  ghost predicate SequencesIssued(before: seq<Partner>, after: seq<Partner>, visited: seq<nat>,
                                  c0: map<Level, nat>, c: map<Level, nat>)
  {
    && |after| == |before|
    && c.Keys == c0.Keys
    && (forall l :: l in c0 ==> c[l] == c0[l] + IssuedCount(before, visited, l))
    && (forall i :: FromSequence(before, visited, c0, i) ==>
          var l := EffectiveLevel(before[i].pendingLevel);
          c0[l] <= SequenceNumber(after[i]) < c[l])
    && (forall i, j ::
          FromSequence(before, visited, c0, i) && FromSequence(before, visited, c0, j) && i != j &&
          EffectiveLevel(before[i].pendingLevel) == EffectiveLevel(before[j].pendingLevel) ==>
            SequenceNumber(after[i]) != SequenceNumber(after[j]))
  }

  /**
   * The write approval makes on the pending partner at position `i`, taking
   * the table from `cur` to `next` and the sequences from `c` to `c'`: the
   * partner is approved, its code carries the next number of its level's
   * sequence (which advances) or, without one, the fallback count; nothing
   * else changes.
   */
  ghost predicate ApprovalWrite(cur: seq<Partner>, c: map<Level, nat>, next: seq<Partner>, c': map<Level, nat>,
                                i: nat, user: nat, now: int, today: Date)
    requires ValidDate(today) && i < |cur|
  {
    var l := EffectiveLevel(cur[i].pendingLevel);
    && |next| == |cur|
    && (forall j :: 0 <= j < |next| && j != i ==> next[j] == cur[j])
    && ApprovedFrom(cur[i], next[i], user, now, today)
    && (l in c ==> next[i].code == Some(FormatCode(l, CounterSequence(c[l]), today)) && c' == c[l := c[l] + 1])
    && (l !in c ==> next[i].code == Some(FormatCode(l, FallbackSequence(cur, l), today)) && c' == c)
  }

  /** `ApprovedSoFar` and `SequencesIssued` together: the state of the approval loop. */
  ghost predicate ApprovalProgress(before: seq<Partner>, c0: map<Level, nat>, after: seq<Partner>, c: map<Level, nat>,
                                   visited: seq<nat>, user: nat, now: int, today: Date)
    requires ValidDate(today)
  {
    ApprovedSoFar(before, after, visited, user, now, today) && SequencesIssued(before, after, visited, c0, c)
  }

  /** Visiting one more position, approving it when it is still pending, keeps `ApprovalProgress`. */
  lemma ApprovalLoopStep(before: seq<Partner>, c0: map<Level, nat>, cur: seq<Partner>, c: map<Level, nat>,
                         next: seq<Partner>, c': map<Level, nat>, visited: seq<nat>, i: nat,
                         user: nat, now: int, today: Date)
    requires ValidDate(today) && i < |cur|
    requires ApprovalProgress(before, c0, cur, c, visited, user, now, today)
    requires cur[i].state != Pending ==> next == cur && c' == c
    requires cur[i].state == Pending ==> ApprovalWrite(cur, c, next, c', i, user, now, today)
    ensures cur[i].state == Pending <==> before[i].state == Pending && i !in visited
    ensures ApprovalProgress(before, c0, next, c', visited + [i], user, now, today)
  {
    ApproveStep(before, cur, next, visited, i, user, now, today);
    assert i !in visited ==> cur[i] == before[i];
    SequenceStep(before, cur, next, visited, i, c0, c, c', today);
  }

  /** A code built from a sequence number reads back as that number. */
  lemma CounterCodeNumber(p: Partner, l: Level, n: nat, today: Date)
    requires ValidDate(today) && p.code == Some(FormatCode(l, CounterSequence(n), today))
    ensures SequenceNumber(p) == n
  {
    ParseFormatCode(l, CounterSequence(n), today);
  }

  /** Visiting one more position keeps `SequencesIssued`. */
  lemma SequenceStep(before: seq<Partner>, cur: seq<Partner>, next: seq<Partner>, visited: seq<nat>, i: nat,
                     c0: map<Level, nat>, c: map<Level, nat>, c': map<Level, nat>, today: Date)
    requires ValidDate(today) && i < |cur|
    requires SequencesIssued(before, cur, visited, c0, c)
    requires cur[i].state == Pending <==> before[i].state == Pending && i !in visited
    requires cur[i].state == Pending ==> cur[i] == before[i]
    requires cur[i].state != Pending ==> next == cur && c' == c
    requires cur[i].state == Pending ==>
               var l := EffectiveLevel(cur[i].pendingLevel);
               && |next| == |cur|
               && (forall j :: 0 <= j < |next| && j != i ==> next[j] == cur[j])
               && (l in c ==> next[i].code == Some(FormatCode(l, CounterSequence(c[l]), today)) && c' == c[l := c[l] + 1])
               && (l !in c ==> c' == c)
    ensures SequencesIssued(before, next, visited + [i], c0, c')
  {
    var v := visited + [i];
    assert v[..|v| - 1] == visited;
    var l := EffectiveLevel(before[i].pendingLevel);
    if cur[i].state == Pending && l in c {
      CounterCodeNumber(next[i], l, c[l], today);
      forall j | FromSequence(before, v, c0, j) && j != i
        ensures FromSequence(before, visited, c0, j) && next[j] == cur[j]
      {
      }
    } else {
      forall j | FromSequence(before, v, c0, j)
        ensures FromSequence(before, visited, c0, j)
      {
      }
    }
  }

  /** Partners approved in one run at levels with a sequence never share a code. */
  lemma IssuedCodesDistinct(before: seq<Partner>, after: seq<Partner>, visited: seq<nat>,
                            c0: map<Level, nat>, c: map<Level, nat>, user: nat, now: int, today: Date)
    requires ValidDate(today)
    requires ApprovedSoFar(before, after, visited, user, now, today)
    requires SequencesIssued(before, after, visited, c0, c)
    ensures forall i, j :: FromSequence(before, visited, c0, i) && FromSequence(before, visited, c0, j) && i != j ==>
              after[i].code != after[j].code
  {
    forall i, j | FromSequence(before, visited, c0, i) && FromSequence(before, visited, c0, j) && i != j
      ensures after[i].code != after[j].code
    {
      assert ApprovedFrom(before[i], after[i], user, now, today);
      assert ApprovedFrom(before[j], after[j], user, now, today);
    }
  }

  // ---------------------------------------------------------------------
  // Approval, as a function of the partner table and the sequences
  // ---------------------------------------------------------------------

  /**
   * The write approval makes on the partner at position `i`: approved, with
   * the code built from its level's sequence (which advances) or, without
   * one, from the count of codes of its level in the table as it stands.
   */
  function ApproveOne(ps: seq<Partner>, c: map<Level, nat>, i: nat, user: nat, now: int, today: Date)
    : (r: (seq<Partner>, map<Level, nat>))
    requires ValidDate(today) && i < |ps|
    ensures |r.0| == |ps|
  {
    var l := EffectiveLevel(ps[i].pendingLevel);
    var code := if l in c then FormatCode(l, CounterSequence(c[l]), today)
                else FormatCode(l, FallbackSequence(ps, l), today);
    (ps[i := ps[i].(state := Approved, code := Some(code), approvedBy := Some(user), approvedDate := Some(now))],
     if l in c then c[l := c[l] + 1] else c)
  }

  /**
   * `action_approve_registration` over the positions `batch`, in batch order:
   * each partner still pending when its turn comes is approved by `ApproveOne`
   * on the table and sequences left by the partners before it.
   */
  function ApproveOutcome(ps: seq<Partner>, c: map<Level, nat>, batch: seq<nat>, user: nat, now: int, today: Date)
    : (r: (seq<Partner>, map<Level, nat>))
    requires ValidDate(today)
    requires forall k :: 0 <= k < |batch| ==> batch[k] < |ps|
    ensures |r.0| == |ps|
    decreases |batch|
  {
    if batch == [] then (ps, c)
    else
      var prev := ApproveOutcome(ps, c, batch[..|batch| - 1], user, now, today);
      var i := batch[|batch| - 1];
      if prev.0[i].state == Pending then ApproveOne(prev.0, prev.1, i, user, now, today) else prev
  }

  lemma ApproveOneWrite(ps: seq<Partner>, c: map<Level, nat>, i: nat, user: nat, now: int, today: Date)
    requires ValidDate(today) && i < |ps|
    ensures var r := ApproveOne(ps, c, i, user, now, today);
      ApprovalWrite(ps, c, r.0, r.1, i, user, now, today)
  {
    var l := EffectiveLevel(ps[i].pendingLevel);
    if l in c {
      ParseFormatCode(l, CounterSequence(c[l]), today);
    } else {
      ParseFormatCode(l, FallbackSequence(ps, l), today);
    }
  }

  /**
   * Batch approval approves exactly the partners of the batch that were
   * pending, keeps every other partner, and hands out sequence numbers as
   * `SequencesIssued` states.
   */
  lemma {:induction false} ApproveOutcomeProgress(ps: seq<Partner>, c: map<Level, nat>, batch: seq<nat>,
                                                  user: nat, now: int, today: Date)
    requires ValidDate(today)
    requires forall k :: 0 <= k < |batch| ==> batch[k] < |ps|
    ensures var r := ApproveOutcome(ps, c, batch, user, now, today);
      ApprovalProgress(ps, c, r.0, r.1, batch, user, now, today)
    decreases |batch|
  {
    if batch != [] {
      var front := batch[..|batch| - 1];
      var i := batch[|batch| - 1];
      assert batch == front + [i];
      ApproveOutcomeProgress(ps, c, front, user, now, today);
      var prev := ApproveOutcome(ps, c, front, user, now, today);
      var r := ApproveOutcome(ps, c, batch, user, now, today);
      if prev.0[i].state == Pending {
        ApproveOneWrite(prev.0, prev.1, i, user, now, today);
      }
      ApprovalLoopStep(ps, c, prev.0, prev.1, r.0, r.1, front, i, user, now, today);
    }
  }

  /** Position `i` was visited, was pending, and its level has no sequence. */
  ghost predicate FromFallback(before: seq<Partner>, visited: seq<nat>, c0: map<Level, nat>, i: int)
  {
    0 <= i < |before| && i in visited && before[i].state == Pending && EffectiveLevel(before[i].pendingLevel) !in c0
  }

  /**
   * For the levels without a sequence: the count of their codes grew by one
   * per partner of the level approved, and each such partner carries a
   * distinct number above the count approval started from.
   */
  ghost predicate FallbackIssued(before: seq<Partner>, after: seq<Partner>, visited: seq<nat>, c0: map<Level, nat>)
  {
    && |after| == |before|
    && (forall l :: l !in c0 ==>
          CountContaining(after, CodePrefix(l)) == CountContaining(before, CodePrefix(l)) + IssuedCount(before, visited, l))
    && (forall i :: FromFallback(before, visited, c0, i) ==>
          var l := EffectiveLevel(before[i].pendingLevel);
          CountContaining(before, CodePrefix(l)) < SequenceNumber(after[i]) <= CountContaining(after, CodePrefix(l)))
    && (forall i, j ::
          FromFallback(before, visited, c0, i) && FromFallback(before, visited, c0, j) && i != j &&
          EffectiveLevel(before[i].pendingLevel) == EffectiveLevel(before[j].pendingLevel) ==>
            SequenceNumber(after[i]) != SequenceNumber(after[j]))
  }

  /** No partner of the batch that is pending holds a code yet. */
  ghost predicate PendingWithoutCode(ps: seq<Partner>, batch: seq<nat>)
  {
    forall k :: 0 <= k < |batch| && batch[k] < |ps| && ps[batch[k]].state == Pending ==> ps[batch[k]].code.None?
  }

  /**
   * Giving the codeless partner at position `i` a code of level `l` adds one
   * to the count of codes containing `l`'s prefix and leaves the other
   * level's count alone.
   */
  lemma CountAfterIssue(cur: seq<Partner>, i: nat, p: Partner, l: Level, sequence: string, today: Date)
    requires ValidDate(today) && AllDigits(sequence) && i < |cur|
    requires cur[i].code.None? && p.code == Some(FormatCode(l, sequence, today))
    ensures forall l' :: CountContaining(cur[i := p], CodePrefix(l')) ==
                         CountContaining(cur, CodePrefix(l')) + (if l == l' then 1 else 0)
  {
    forall l'
      ensures CountContaining(cur[i := p], CodePrefix(l')) ==
              CountContaining(cur, CodePrefix(l')) + (if l == l' then 1 else 0)
    {
      CountContainingUpdate(cur, i, p, CodePrefix(l'));
      CodeContainsOwnPrefixOnly(l', l, sequence, today);
    }
  }

  /** Visiting a position that is no longer pending keeps `FallbackIssued`. */
  lemma FallbackSkip(before: seq<Partner>, cur: seq<Partner>, visited: seq<nat>, i: nat, c0: map<Level, nat>)
    requires FallbackIssued(before, cur, visited, c0)
    requires i < |before| && before[i].state == Pending ==> i in visited
    ensures FallbackIssued(before, cur, visited + [i], c0)
  {
    var v := visited + [i];
    assert v[..|v| - 1] == visited;
    forall j | FromFallback(before, v, c0, j)
      ensures FromFallback(before, visited, c0, j)
    {
    }
  }

  /**
   * Approving the partner at position `i`, pending and codeless until now,
   * with a code of its level keeps `FallbackIssued`; without a sequence its
   * number is the count of its level's codes plus one.
   */
  lemma FallbackIssue(before: seq<Partner>, cur: seq<Partner>, visited: seq<nat>, i: nat, p: Partner,
                      sequence: string, c0: map<Level, nat>, today: Date)
    requires ValidDate(today) && i < |cur| && |sequence| >= 1 && AllDigits(sequence)
    requires FallbackIssued(before, cur, visited, c0)
    requires before[i].state == Pending && i !in visited && cur[i] == before[i] && cur[i].code.None?
    requires p.code == Some(FormatCode(EffectiveLevel(before[i].pendingLevel), sequence, today))
    requires EffectiveLevel(before[i].pendingLevel) !in c0 ==>
               Value(sequence) == CountContaining(cur, CodePrefix(EffectiveLevel(before[i].pendingLevel))) + 1
    ensures FallbackIssued(before, cur[i := p], visited + [i], c0)
  {
    var v := visited + [i];
    var next := cur[i := p];
    var l := EffectiveLevel(before[i].pendingLevel);
    assert v[..|v| - 1] == visited;
    CountAfterIssue(cur, i, p, l, sequence, today);
    ParseFormatCode(l, sequence, today);
    assert SequenceNumber(p) == Value(sequence);
    forall j | FromFallback(before, v, c0, j) && j != i
      ensures FromFallback(before, visited, c0, j) && next[j] == cur[j]
    {
    }
  }

  /** Batch approval hands out fallback numbers as `FallbackIssued` states. */
  lemma {:induction false} ApproveOutcomeFallback(ps: seq<Partner>, c: map<Level, nat>, batch: seq<nat>,
                                                  user: nat, now: int, today: Date)
    requires ValidDate(today)
    requires forall k :: 0 <= k < |batch| ==> batch[k] < |ps|
    requires PendingWithoutCode(ps, batch)
    ensures FallbackIssued(ps, ApproveOutcome(ps, c, batch, user, now, today).0, batch, c)
    decreases |batch|
  {
    if batch != [] {
      var front := batch[..|batch| - 1];
      var i := batch[|batch| - 1];
      assert batch == front + [i];
      ApproveOutcomeFallback(ps, c, front, user, now, today);
      ApproveOutcomeProgress(ps, c, front, user, now, today);
      var prev := ApproveOutcome(ps, c, front, user, now, today);
      var r := ApproveOutcome(ps, c, batch, user, now, today);
      if prev.0[i].state == Pending {
        ApproveOneWrite(prev.0, prev.1, i, user, now, today);
      }
      ApprovalLoopStep(ps, c, prev.0, prev.1, r.0, r.1, front, i, user, now, today);
      if prev.0[i].state == Pending {
        var l := EffectiveLevel(ps[i].pendingLevel);
        var sequence := if l in prev.1 then CounterSequence(prev.1[l]) else FallbackSequence(prev.0, l);
        assert prev.0[i] == ps[i];
        FallbackIssue(ps, prev.0, front, i, r.0[i], sequence, c, today);
        assert r.0 == prev.0[i := r.0[i]];
      } else {
        FallbackSkip(ps, prev.0, front, i, c);
      }
    }
  }

  /**
   * No two partners approved in one run get the same code, whether their
   * level has a sequence or falls back to counting, provided the pending
   * partners of the batch held no code before.
   */
  lemma ApprovedCodesDistinct(ps: seq<Partner>, c: map<Level, nat>, batch: seq<nat>, user: nat, now: int, today: Date)
    requires ValidDate(today)
    requires forall k :: 0 <= k < |batch| ==> batch[k] < |ps|
    requires PendingWithoutCode(ps, batch)
    ensures var after := ApproveOutcome(ps, c, batch, user, now, today).0;
      forall i, j :: 0 <= i < |ps| && 0 <= j < |ps| && i in batch && j in batch && i != j &&
                     ps[i].state == Pending && ps[j].state == Pending ==>
                       after[i].code != after[j].code
  {
    var r := ApproveOutcome(ps, c, batch, user, now, today);
    ApproveOutcomeProgress(ps, c, batch, user, now, today);
    ApproveOutcomeFallback(ps, c, batch, user, now, today);
    IssuedCodesDistinct(ps, r.0, batch, c, r.1, user, now, today);
    forall i, j | 0 <= i < |ps| && 0 <= j < |ps| && i in batch && j in batch && i != j &&
                  ps[i].state == Pending && ps[j].state == Pending
      ensures r.0[i].code != r.0[j].code
    {
      assert ApprovedFrom(ps[i], r.0[i], user, now, today);
      assert ApprovedFrom(ps[j], r.0[j], user, now, today);
    }
  }

  // ---------------------------------------------------------------------
  // Rejection, as a function of the partner table
  // ---------------------------------------------------------------------

  /**
   * `action_reject_registration` over the records at positions `batch`:
   * whether it stopped with the "note required" warning, and the table after.
   */
  function RejectOutcome(ps: seq<Partner>, batch: seq<nat>): (r: (bool, seq<Partner>))
    requires forall k :: 0 <= k < |batch| ==> batch[k] < |ps|
    ensures |r.1| == |ps|
    decreases |batch|
  {
    if batch == [] then (false, ps)
    else
      var i := batch[0];
      if ps[i].state == Pending then
        if NoteEmpty(ps[i].note) then (true, ps)
        else RejectOutcome(ps[i := ps[i].(state := Rejected)], batch[1..])
      else RejectOutcome(ps, batch[1..])
  }

  /**
   * Rejection changes only pending partners of the batch whose note is
   * filled in, and only their state, to rejected.
   */
  lemma {:induction false} RejectChangesOnlyNotedPending(ps: seq<Partner>, batch: seq<nat>)
    requires forall k :: 0 <= k < |batch| ==> batch[k] < |ps|
    ensures var ps' := RejectOutcome(ps, batch).1;
      forall i :: 0 <= i < |ps| ==>
        ps'[i] == ps[i] ||
        (i in batch && ps[i].state == Pending && !NoteEmpty(ps[i].note) && ps'[i] == ps[i].(state := Rejected))
    decreases |batch|
  {
    if batch != [] {
      var i := batch[0];
      if ps[i].state == Pending && !NoteEmpty(ps[i].note) {
        var next := ps[i := ps[i].(state := Rejected)];
        RejectChangesOnlyNotedPending(next, batch[1..]);
      } else if ps[i].state != Pending {
        RejectChangesOnlyNotedPending(ps, batch[1..]);
      }
    }
  }

  /** A pending partner of the batch with an empty note: the warning is returned and that partner stays pending. */
  lemma {:induction false} RejectWarnsOnEmptyNote(ps: seq<Partner>, batch: seq<nat>, k: nat)
    requires forall k :: 0 <= k < |batch| ==> batch[k] < |ps|
    requires k < |batch| && ps[batch[k]].state == Pending && NoteEmpty(ps[batch[k]].note)
    ensures RejectOutcome(ps, batch).0
    ensures RejectOutcome(ps, batch).1[batch[k]].state == Pending
    decreases |batch|
  {
    RejectChangesOnlyNotedPending(ps, batch);
    var i := batch[0];
    if k > 0 && !(ps[i].state == Pending && NoteEmpty(ps[i].note)) {
      var next := if ps[i].state == Pending then ps[i := ps[i].(state := Rejected)] else ps;
      assert i != batch[k];
      assert next[batch[k]] == ps[batch[k]];
      RejectWarnsOnEmptyNote(next, batch[1..], k - 1);
    }
  }

  /**
   * Rejection stops at the first pending partner of the batch whose note is
   * empty: the table is what rejecting the partners before it gives, and no
   * partner outside that prefix of the batch changes.
   */
  lemma {:induction false} RejectStopsAtEmptyNote(ps: seq<Partner>, batch: seq<nat>, k: nat)
    requires forall k :: 0 <= k < |batch| ==> batch[k] < |ps|
    requires k < |batch| && ps[batch[k]].state == Pending && NoteEmpty(ps[batch[k]].note)
    requires forall j :: 0 <= j < k ==> !(ps[batch[j]].state == Pending && NoteEmpty(ps[batch[j]].note))
    ensures RejectOutcome(ps, batch) == (true, RejectOutcome(ps, batch[..k]).1)
    ensures forall p :: 0 <= p < |ps| && p !in batch[..k] ==> RejectOutcome(ps, batch).1[p] == ps[p]
    decreases |batch|
  {
    if k > 0 {
      var i := batch[0];
      var next := if ps[i].state == Pending then ps[i := ps[i].(state := Rejected)] else ps;
      assert batch[k] != i;
      forall j | 0 <= j < k - 1
        ensures !(next[batch[1..][j]].state == Pending && NoteEmpty(next[batch[1..][j]].note))
      {
        assert batch[1..][j] == batch[j + 1];
      }
      RejectStopsAtEmptyNote(next, batch[1..], k - 1);
      assert batch[..k][1..] == batch[1..][..k - 1];
    }
    RejectChangesOnlyNotedPending(ps, batch[..k]);
  }

  /** Without a warning, every partner of the batch that was pending is rejected. */
  lemma {:induction false} RejectCompletes(ps: seq<Partner>, batch: seq<nat>)
    requires forall k :: 0 <= k < |batch| ==> batch[k] < |ps|
    requires !RejectOutcome(ps, batch).0
    ensures forall k :: 0 <= k < |batch| && ps[batch[k]].state == Pending ==>
              RejectOutcome(ps, batch).1[batch[k]].state == Rejected
    decreases |batch|
  {
    if batch != [] {
      var i := batch[0];
      var next := if ps[i].state == Pending then ps[i := ps[i].(state := Rejected)] else ps;
      RejectCompletes(next, batch[1..]);
      RejectChangesOnlyNotedPending(next, batch[1..]);
      forall k | 0 <= k < |batch| && ps[batch[k]].state == Pending
        ensures RejectOutcome(ps, batch).1[batch[k]].state == Rejected
      {
        if batch[k] == i {
          assert next[i].state == Rejected;
        } else {
          assert k > 0 && batch[1..][k - 1] == batch[k];
        }
      }
    }
  }

  // ---------------------------------------------------------------------
  // The partner table and the per-level sequences, updated in place
  // ---------------------------------------------------------------------

  class RegistrationDesk {
    /** The partner table. */
    var partners: seq<Partner>
    /** The next number of each level's `ir.sequence`; a level without a sequence is absent. */
    var counters: map<Level, nat>

    constructor (partners: seq<Partner>, counters: map<Level, nat>)
      ensures this.partners == partners && this.counters == counters
    {
      this.partners := partners;
      this.counters := counters;
    }

    /** `next_by_code('candidate.registration.' + level)`: advances only that level's sequence. */
    method NextByCode(l: Level) returns (s: Option<string>)
      modifies this`counters
      ensures l in old(counters) ==> s == Some(CounterSequence(old(counters)[l])) && counters == old(counters)[l := old(counters)[l] + 1]
      ensures l !in old(counters) ==> s == None && counters == old(counters)
    {
      if l in counters {
        var n := counters[l];
        s := Some(CounterSequence(n));
        counters := counters[l := n + 1];
      } else {
        s := None;
      }
    }

    /** `_generate_registration_code` for the partner at position `i`. */
    method GenerateCode(i: nat, today: Date) returns (code: string)
      requires i < |partners| && ValidDate(today)
      modifies this`counters
      ensures var l := EffectiveLevel(partners[i].pendingLevel);
        && (l in old(counters) ==> code == FormatCode(l, CounterSequence(old(counters)[l]), today)
                                   && counters == old(counters)[l := old(counters)[l] + 1])
        && (l !in old(counters) ==> code == FormatCode(l, FallbackSequence(partners, l), today)
                                    && counters == old(counters))
      ensures IsCodeFor(code, EffectiveLevel(partners[i].pendingLevel), today)
    {
      var level := EffectiveLevel(partners[i].pendingLevel);
      var sequence := NextByCode(level);
      var digits: string;
      if sequence.None? {
        digits := FallbackSequence(partners, level);
      } else {
        digits := sequence.value;
      }
      code := FormatCode(level, digits, today);
      ParseFormatCode(level, digits, today);
      assert level == EffectiveLevel(partners[i].pendingLevel);
    }

    /** The write approval makes on one pending partner: state, a fresh code, approver and time. */
    method ApprovePartner(i: nat, user: nat, now: int, today: Date)
      requires i < |partners| && ValidDate(today)
      modifies this
      ensures ApprovalWrite(old(partners), old(counters), partners, counters, i, user, now, today)
      ensures (partners, counters) == ApproveOne(old(partners), old(counters), i, user, now, today)
    {
      var code := GenerateCode(i, today);
      partners := partners[i := partners[i].(state := Approved, code := Some(code),
                                               approvedBy := Some(user), approvedDate := Some(now))];
    }

    /**
     * `action_approve_registration` over the records at positions `batch`:
     * pending partners become approved with a fresh code; all others keep
     * every field. `mailFailures` are the partners whose notification fails;
     * they are approved all the same and are returned for the warning note.
     */
    method ApproveRegistration(batch: seq<nat>, user: nat, now: int, today: Date, mailFailures: set<nat>)
      returns (mailWarnings: set<nat>)
      requires forall k :: 0 <= k < |batch| ==> batch[k] < |partners|
      requires ValidDate(today)
      modifies this
      ensures ApprovedSoFar(old(partners), partners, batch, user, now, today)
      ensures mailWarnings == MailWarned(old(partners), batch, mailFailures)
      ensures counters.Keys == old(counters).Keys
      ensures forall l :: l in old(counters) ==> counters[l] == old(counters)[l] + IssuedCount(old(partners), batch, l)
      ensures SequencesIssued(old(partners), partners, batch, old(counters), counters)
      ensures forall i, j ::
                FromSequence(old(partners), batch, old(counters), i) &&
                FromSequence(old(partners), batch, old(counters), j) && i != j ==>
                  partners[i].code != partners[j].code
      ensures (partners, counters) == ApproveOutcome(old(partners), old(counters), batch, user, now, today)
      ensures PendingWithoutCode(old(partners), batch) ==>
                forall i, j :: 0 <= i < |partners| && 0 <= j < |partners| && i in batch && j in batch && i != j &&
                               old(partners)[i].state == Pending && old(partners)[j].state == Pending ==>
                                 partners[i].code != partners[j].code
    {
      mailWarnings := {};
      for k := 0 to |batch|
        invariant ApprovalProgress(old(partners), old(counters), partners, counters, batch[..k], user, now, today)
        invariant (partners, counters) == ApproveOutcome(old(partners), old(counters), batch[..k], user, now, today)
        invariant mailWarnings == MailWarned(old(partners), batch[..k], mailFailures)
      {
        var i := batch[k];
        assert batch[..k + 1] == batch[..k] + [i];
        assert batch[..k + 1][..k] == batch[..k];
        ghost var cur, c, warned := partners, counters, mailWarnings;
        if partners[i].state == Pending {
          ApprovePartner(i, user, now, today);
          if i in mailFailures {
            mailWarnings := mailWarnings + {i};
          }
        }
        ApprovalLoopStep(old(partners), old(counters), cur, c, partners, counters, batch[..k], i, user, now, today);
        MailStep(old(partners), batch[..k], i, cur[i].state == Pending, mailFailures, warned);
      }
      assert batch[..|batch|] == batch;
      IssuedCodesDistinct(old(partners), partners, batch, old(counters), counters, user, now, today);
      if PendingWithoutCode(old(partners), batch) {
        ApprovedCodesDistinct(old(partners), old(counters), batch, user, now, today);
      }
    }

    /**
     * `action_reject_registration` over the records at positions `batch`;
     * returns whether it stopped with the "note required" warning.
     */
    method RejectRegistration(batch: seq<nat>) returns (warning: bool)
      requires forall k :: 0 <= k < |batch| ==> batch[k] < |partners|
      modifies this`partners
      ensures (warning, partners) == RejectOutcome(old(partners), batch)
    {
      for k := 0 to |batch|
        invariant |partners| == |old(partners)|
        invariant RejectOutcome(old(partners), batch) == RejectOutcome(partners, batch[k..])
      {
        var i := batch[k];
        assert batch[k..][1..] == batch[k + 1..];
        if partners[i].state == Pending {
          if NoteEmpty(partners[i].note) {
            return true;
          }
          partners := partners[i := partners[i].(state := Rejected)];
        }
      }
      warning := false;
    }
  }
}
