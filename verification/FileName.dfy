/** The names under which a run's record, temporary record and scratch directory are stored. */
module FileName {
  import opened Arith
  import opened RunRecords

  function DigitChar(d: nat): char
    requires d < 10
  {
    '0' + d as char
  }

  predicate IsDigit(c: char) {
    '0' <= c <= '9'
  }

  /** The decimal rendering of an unsigned integer. */
  function Decimal(n: nat): string {
    if n < 10 then [DigitChar(n)] else Decimal(n / 10) + [DigitChar(n % 10)]
  }

  function ServerLower(s: ServerKind): string {
    match s
    case Uring => "uring"
    case Tokio => "tokio"
    case Mosquitto => "mosquitto"
  }

  function KindLower(k: RunKind): string {
    match k
    case Throughput => "throughput"
    case Latency => "latency"
    case Connections => "connections"
    case Counted => "counted"
  }

  function Tagged(tag: string, n: Option<nat>): string {
    match n
    case None => ""
    case Some(v) => tag + Decimal(v)
  }

  /** The name up to and including the repetition number. */
  function NameBody(key: ConfigKey, attempt: u32, repetition: u32): string {
    ServerLower(key.server) + ("-w" + (Decimal(key.workers) + QosOn(key, attempt, repetition)))
  }

  function QosOn(key: ConfigKey, attempt: u32, repetition: u32): string {
    Tagged("-q", key.qos) + ("-" + (KindLower(key.kind) + RateOn(key, attempt, repetition)))
  }

  function RateOn(key: ConfigKey, attempt: u32, repetition: u32): string {
    Tagged("-at", key.offeredRate) + ("-a" + (Decimal(attempt) + ("-r" + Decimal(repetition))))
  }

  function RecordName(key: ConfigKey, attempt: u32, repetition: u32): string {
    NameBody(key, attempt, repetition) + ".json"
  }

  /** Removal of every occurrence of `.json`. */
  function WithoutJson(s: string): string {
    if |s| >= 5 && s[..5] == ".json" then WithoutJson(s[5..])
    else if s == "" then ""
    else [s[0]] + WithoutJson(s[1..])
  }

  /** `stem_for`: the record's name with `.json` removed. */
  function Stem(key: ConfigKey, attempt: u32, repetition: u32): string {
    WithoutJson(RecordName(key, attempt, repetition))
  }

  function TemporaryName(key: ConfigKey, attempt: u32, repetition: u32): string {
    RecordName(key, attempt, repetition) + ".tmp"
  }

  // ---------------------------------------------------------------- decimal renderings

  predicate StartsPlain(s: string) {
    s == "" || !IsDigit(s[0])
  }

  lemma {:induction false} DecimalDigits(n: nat)
    ensures Decimal(n) != "" && forall i | 0 <= i < |Decimal(n)| :: IsDigit(Decimal(n)[i])
  {
    if n >= 10 { DecimalDigits(n / 10); }
  }

  lemma {:induction false} DecimalInjective(a: nat, b: nat)
    requires Decimal(a) == Decimal(b)
    ensures a == b
  {
    DecimalDigits(a / 10);
    DecimalDigits(b / 10);
    var s := Decimal(a);
    assert s[|s| - 1] == DigitChar(a % 10) == DigitChar(b % 10);
    if a >= 10 && b >= 10 {
      assert s[..|s| - 1] == Decimal(a / 10) == Decimal(b / 10);
      DecimalInjective(a / 10, b / 10);
    }
  }

  /** A number ends where its digits do, so it can be read back from the front of a name. */
  lemma ReadDecimal(a: nat, x: string, b: nat, y: string)
    requires Decimal(a) + x == Decimal(b) + y && StartsPlain(x) && StartsPlain(y)
    ensures a == b && x == y
  {
    var s := Decimal(a) + x;
    DecimalDigits(a);
    DecimalDigits(b);
    SameRun(Decimal(a), x, Decimal(b), y);
    SameRun(Decimal(b), y, Decimal(a), x);
    assert Decimal(a) == s[..|Decimal(a)|] == Decimal(b);
    DecimalInjective(a, b);
    assert x == s[|Decimal(a)|..] == y;
  }

  lemma SameRun(p: string, x: string, q: string, y: string)
    requires p + x == q + y && StartsPlain(x) && forall i | 0 <= i < |q| :: IsDigit(q[i])
    ensures |q| <= |p|
  {
    assert x != "" ==> (p + x)[|p|] == x[0];
    if q != "" {
      var i := Min(|p|, |q| - 1);
      assert IsDigit((q + y)[i]);
    }
  }

  lemma Cancel(p: string, x: string, q: string, y: string)
    requires p + x == q + y && |p| == |q|
    ensures p == q && x == y
  {
    assert p == (p + x)[..|p|] == q;
    assert x == (p + x)[|p|..] == y;
  }

  // ---------------------------------------------------------------- names are injective

  lemma ReadAttempt(a: nat, r: nat, a': nat, r': nat)
    requires "-a" + (Decimal(a) + ("-r" + Decimal(r))) == "-a" + (Decimal(a') + ("-r" + Decimal(r')))
    ensures a == a' && r == r'
  {
    Cancel("-a", Decimal(a) + ("-r" + Decimal(r)), "-a", Decimal(a') + ("-r" + Decimal(r')));
    ReadDecimal(a, "-r" + Decimal(r), a', "-r" + Decimal(r'));
    Cancel("-r", Decimal(r), "-r", Decimal(r'));
    DecimalInjective(r, r');
  }

  /** An optional tagged number is read back, given what follows it cannot be taken for the tag. */
  lemma ReadTagged(tag: string, m: Option<nat>, x: string, n: Option<nat>, y: string)
    requires Tagged(tag, m) + x == Tagged(tag, n) + y && StartsPlain(x) && StartsPlain(y)
    requires !(tag <= x) && !(tag <= y)
    ensures m == n && x == y
  {
    DropTag(tag, m, x);
    DropTag(tag, n, y);
    if m.Some? && n.Some? {
      Cancel(tag, Decimal(m.value) + x, tag, Decimal(n.value) + y);
      ReadDecimal(m.value, x, n.value, y);
    }
  }

  lemma DropTag(tag: string, m: Option<nat>, x: string)
    ensures m.Some? ==> Tagged(tag, m) + x == tag + (Decimal(m.value) + x) && tag <= Tagged(tag, m) + x
    ensures m.None? ==> Tagged(tag, m) + x == x
  {
  }

  lemma ReadRate(k: ConfigKey, a: u32, r: u32, k': ConfigKey, a': u32, r': u32)
    requires RateOn(k, a, r) == RateOn(k', a', r')
    ensures k.offeredRate == k'.offeredRate && a == a' && r == r'
  {
    var x := "-a" + (Decimal(a) + ("-r" + Decimal(r)));
    var y := "-a" + (Decimal(a') + ("-r" + Decimal(r')));
    DecimalDigits(a);
    DecimalDigits(a');
    assert IsDigit(x[2]) && IsDigit(y[2]) && "-at"[2] == 't';
    ReadTagged("-at", k.offeredRate, x, k'.offeredRate, y);
    ReadAttempt(a, r, a', r');
  }

  lemma ReadKind(k: RunKind, x: string, k': RunKind, y: string)
    requires KindLower(k) + x == KindLower(k') + y
    ensures k == k' && x == y
  {
    var s := KindLower(k) + x;
    var s' := KindLower(k') + y;
    assert s[0] == KindLower(k)[0] && s'[0] == KindLower(k')[0];
    assert s[2] == KindLower(k)[2] && s'[2] == KindLower(k')[2];
    assert k == k';
    Cancel(KindLower(k), x, KindLower(k'), y);
  }

  lemma ReadQos(k: ConfigKey, a: u32, r: u32, k': ConfigKey, a': u32, r': u32)
    requires QosOn(k, a, r) == QosOn(k', a', r')
    ensures k.qos == k'.qos && k.kind == k'.kind && k.offeredRate == k'.offeredRate && a == a' && r == r'
  {
    var rest := KindLower(k.kind) + RateOn(k, a, r);
    var rest' := KindLower(k'.kind) + RateOn(k', a', r');
    assert rest[0] == KindLower(k.kind)[0] != 'q' && rest'[0] == KindLower(k'.kind)[0] != 'q';
    assert ("-" + rest)[1] != 'q' && ("-" + rest')[1] != 'q' && "-q"[1] == 'q';
    ReadTagged("-q", k.qos, "-" + rest, k'.qos, "-" + rest');
    Cancel("-", rest, "-", rest');
    ReadKind(k.kind, RateOn(k, a, r), k'.kind, RateOn(k', a', r'));
    ReadRate(k, a, r, k', a', r');
  }

  lemma ReadServer(s: ServerKind, x: string, s': ServerKind, y: string)
    requires ServerLower(s) + x == ServerLower(s') + y
    ensures s == s' && x == y
  {
    assert (ServerLower(s) + x)[0] == ServerLower(s)[0] && (ServerLower(s') + y)[0] == ServerLower(s')[0];
    assert s == s';
    Cancel(ServerLower(s), x, ServerLower(s'), y);
  }

  lemma QosStart(k: ConfigKey, a: u32, r: u32)
    ensures var s := QosOn(k, a, r); |s| >= 1 && s[0] == '-'
  {
    DropTag("-q", k.qos, "-" + (KindLower(k.kind) + RateOn(k, a, r)));
  }

  lemma BodyInjective(k: ConfigKey, a: u32, r: u32, k': ConfigKey, a': u32, r': u32)
    requires NameBody(k, a, r) == NameBody(k', a', r')
    ensures k == k' && a == a' && r == r'
  {
    var x := Decimal(k.workers) + QosOn(k, a, r);
    var y := Decimal(k'.workers) + QosOn(k', a', r');
    ReadServer(k.server, "-w" + x, k'.server, "-w" + y);
    Cancel("-w", x, "-w", y);
    QosStart(k, a, r);
    QosStart(k', a', r');
    ReadDecimal(k.workers, QosOn(k, a, r), k'.workers, QosOn(k', a', r'));
    ReadQos(k, a, r, k', a', r');
  }

  // ---------------------------------------------------------------- the three names of a run

  predicate NoDot(s: string) {
    forall i | 0 <= i < |s| :: s[i] != '.'
  }

  lemma NoDotConcat(x: string, y: string)
    requires NoDot(x) && NoDot(y)
    ensures NoDot(x + y)
  {
  }

  /** A tag, a number and a rest without a dot. */
  lemma NumberHasNoDot(tag: string, n: nat, rest: string)
    requires NoDot(tag) && NoDot(rest)
    ensures NoDot(tag + (Decimal(n) + rest)) && NoDot(tag + Decimal(n))
  {
    DecimalDigits(n);
    NoDotConcat(Decimal(n), rest);
    NoDotConcat(tag, Decimal(n));
    NoDotConcat(tag, Decimal(n) + rest);
  }

  lemma TaggedHasNoDot(tag: string, n: Option<nat>, rest: string)
    requires NoDot(tag) && NoDot(rest)
    ensures NoDot(Tagged(tag, n) + rest)
  {
    DropTag(tag, n, rest);
    if n.Some? { NumberHasNoDot(tag, n.value, rest); }
  }

  lemma RateHasNoDot(k: ConfigKey, a: u32, r: u32)
    ensures NoDot(RateOn(k, a, r))
  {
    NumberHasNoDot("-r", r, "");
    NumberHasNoDot("-a", a, "-r" + Decimal(r));
    TaggedHasNoDot("-at", k.offeredRate, "-a" + (Decimal(a) + ("-r" + Decimal(r))));
  }

  lemma QosHasNoDot(k: ConfigKey, a: u32, r: u32)
    ensures NoDot(QosOn(k, a, r))
  {
    RateHasNoDot(k, a, r);
    NoDotConcat(KindLower(k.kind), RateOn(k, a, r));
    NoDotConcat("-", KindLower(k.kind) + RateOn(k, a, r));
    TaggedHasNoDot("-q", k.qos, "-" + (KindLower(k.kind) + RateOn(k, a, r)));
  }

  lemma BodyHasNoDot(k: ConfigKey, a: u32, r: u32)
    ensures NoDot(NameBody(k, a, r))
  {
    QosHasNoDot(k, a, r);
    NumberHasNoDot("-w", k.workers, QosOn(k, a, r));
    NoDotConcat(ServerLower(k.server), "-w" + (Decimal(k.workers) + QosOn(k, a, r)));
  }

  lemma {:induction false} WithoutJsonSuffix(s: string)
    requires NoDot(s)
    ensures WithoutJson(s + ".json") == s
  {
    if s == "" {
      assert s + ".json" == ".json" && ".json"[..5] == ".json";
    } else {
      assert (s + ".json")[0] == s[0] && (s + ".json")[..5][0] == s[0];
      assert (s + ".json")[1..] == s[1..] + ".json";
      WithoutJsonSuffix(s[1..]);
    }
  }

  /** Distinct runs have distinct record names, temporary names and scratch directories. */
  lemma NamesAreInjective(k: ConfigKey, a: u32, r: u32, k': ConfigKey, a': u32, r': u32)
    requires || RecordName(k, a, r) == RecordName(k', a', r')
             || TemporaryName(k, a, r) == TemporaryName(k', a', r')
             || Stem(k, a, r) == Stem(k', a', r')
    ensures k == k' && a == a' && r == r'
  {
    BodyHasNoDot(k, a, r);
    BodyHasNoDot(k', a', r');
    WithoutJsonSuffix(NameBody(k, a, r));
    WithoutJsonSuffix(NameBody(k', a', r'));
    if TemporaryName(k, a, r) == TemporaryName(k', a', r') {
      CancelEnd(RecordName(k, a, r), RecordName(k', a', r'), ".tmp");
    }
    if RecordName(k, a, r) == RecordName(k', a', r') {
      CancelEnd(NameBody(k, a, r), NameBody(k', a', r'), ".json");
    }
    BodyInjective(k, a, r, k', a', r');
  }

  lemma CancelEnd(x: string, y: string, end: string)
    requires x + end == y + end
    ensures x == y
  {
    assert x == (x + end)[..|x|] && y == (y + end)[..|y|];
  }

  /** No run's temporary record takes another run's record name. */
  lemma RecordIsNotTemporary(k: ConfigKey, a: u32, r: u32, k': ConfigKey, a': u32, r': u32)
    ensures RecordName(k, a, r) != TemporaryName(k', a', r')
  {
    var s, t := RecordName(k, a, r), TemporaryName(k', a', r');
    assert s[|s| - 1] == ".json"[4] == 'n' && t[|t| - 1] == ".tmp"[3] == 'p';
  }
}
