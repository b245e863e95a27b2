/** The four restorable configurations: their stored rows, the forms that edit them, and the form a stored
    version is turned back into. From platform-plans.ts, platform-feature-flags.ts, platform-announcements.ts
    and platform-system-policies.ts in packages/core/src/admin, with the tables of their migrations. */
module SnapshotForms {
  import opened Text
  import opened Decimal
  import FeatureRollout

  // ---------------------------------------------------------------------------------------------
  // Rows, patches and forms
  // ---------------------------------------------------------------------------------------------

  /** Instants are microseconds, as the database keeps them. */
  type Time = int

  datatype Policies = Policies(
    sessionMinutes: Option<int>, passwordMinLength: int, requireUppercase: bool, requireNumber: bool,
    requireSymbol: bool, maxFileSizeMb: Option<int>, timezone: string, currency: string,
    dataRetentionDays: Option<int>, auditRetentionDays: Option<int>, apiPerMinute: int, aiPerMinute: Option<int>,
    webhooksPerMinute: Option<int>, importsPerHour: Option<int>, exportsPerHour: Option<int>,
    automationPerMinute: Option<int>)

  /** The fields an edit, and so a restore, writes. Prices are in hundredths. */
  datatype Patch =
    | PlanPatch(name: string, description: Option<string>, price: nat, interval: string, currency: string,
                status: string, displayOrder: int, marketingVisible: bool)
    | FlagPatch(flagDescription: Option<string>, flagEnabled: bool, from: Option<Time>, to: Option<Time>)
    | NoticePatch(title: string, message: string, publishAt: Option<Time>, expireAt: Option<Time>,
                  maintenanceStart: Option<Time>, maintenanceEnd: Option<Time>, modules: seq<string>,
                  noticeEnabled: bool)
    | PolicyPatch(policies: Policies)

  /** The fields no edit writes: a plan's key, a flag's key and scope, an announcement's type and audience. */
  datatype Identity =
    | PlanIdentity(planKey: string)
    | FlagIdentity(featureKey: string, scope: string)
    | NoticeIdentity(kind: string, audience: string)
    | PolicyIdentity

  /** A row; a flag also carries its rollout and the rollout a rollback would restore. */
  datatype Row = Row(identity: Identity, patch: Patch, rollout: Option<FlagRollout>)

  datatype FlagRollout = FlagRollout(current: FeatureRollout.Rollout, lastGood: Option<FeatureRollout.Rollout>)

  predicate Matched(row: Row) {
    match row.identity
    case PlanIdentity(_) => row.patch.PlanPatch? && row.rollout.None?
    case FlagIdentity(_, _) => row.patch.FlagPatch? && row.rollout.Some?
    case NoticeIdentity(_, _) => row.patch.NoticePatch? && row.rollout.None?
    case PolicyIdentity => row.patch.PolicyPatch? && row.rollout.None?
  }

  /** A date field's text, by what Date.parse makes of it. */
  datatype DateInput = Blank | Unreadable | Instant(t: Time)

  datatype Form =
    | PlanForm(name: string, description: string, price: string, interval: string, currency: string,
               status: string, displayOrder: string, marketingVisible: bool)
    | FlagForm(description: string, enabled: bool, from: DateInput, to: DateInput)
    | NoticeForm(kind: string, title: string, message: string, publishAt: DateInput, expireAt: DateInput,
                 maintenanceStart: DateInput, maintenanceEnd: DateInput, modules: string, enabled: bool)
    | PolicyForm(sessionMinutes: string, passwordMinLength: string, requireUppercase: bool, requireNumber: bool,
                 requireSymbol: bool, maxFileSizeMb: string, timezone: string, currency: string,
                 dataRetentionDays: string, auditRetentionDays: string, apiPerMinute: string, aiPerMinute: string,
                 webhooksPerMinute: string, importsPerHour: string, exportsPerHour: string,
                 automationPerMinute: string)

  // ---------------------------------------------------------------------------------------------
  // Field schemas
  // ---------------------------------------------------------------------------------------------

  /** Trimmed text between min and max characters. */
  function ReadText(s: string, min: nat, max: nat): Option<string> {
    if min <= |Trim(s)| <= max then Some(Trim(s)) else None
  }

  function EmptyToNone(s: string): Option<string> { if s == "" then None else Some(s) }

  function Upper(s: string): (r: string)
    ensures |r| == |s|
  {
    if s == "" then ""
    else (if 'a' <= s[0] <= 'z' then [(s[0] as int - 32) as char] else [s[0]]) + Upper(s[1..])
  }

  predicate IsCurrency(s: string) {
    |s| == 3 && forall i :: 0 <= i < 3 ==> 'A' <= s[i] <= 'Z'
  }

  function ReadCurrency(s: string): Option<string> {
    if IsCurrency(Upper(Trim(s))) then Some(Upper(Trim(s))) else None
  }

  /** Blank for null, else a positive whole number. */
  function ReadOptionalPositive(s: string): Option<Option<int>> {
    if Trim(s) == "" then Some(None)
    else
      match ReadInt(s)
      case Some(n) => if n > 0 then Some(Some(n)) else None
      case None => None
  }

  function ReadPositive(s: string): Option<int> {
    match ReadInt(s)
    case Some(n) => if n > 0 then Some(n) else None
    case None => None
  }

  /** new Date(v).toISOString() keeps whole milliseconds. */
  function WholeMs(t: Time): Time { t - t % 1000 }

  function ReadDate(d: DateInput): Option<Option<Time>> {
    match d
    case Blank => Some(None)
    case Unreadable => None
    case Instant(t) => Some(Some(WholeMs(t)))
  }

  /** The end, when both are given, comes after the start. */
  predicate InOrder(start: Option<Time>, end: Option<Time>) {
    start.Some? && end.Some? ==> end.value > start.value
  }

  /** A price in hundredths, the way String(n) writes it. */
  function PriceText(cents: nat): string {
    var whole := Digits(cents / 100);
    if cents % 100 == 0 then whole
    else if cents % 10 == 0 then whole + "." + [DigitChar(cents / 10 % 10)]
    else whole + "." + [DigitChar(cents / 10 % 10), DigitChar(cents % 10)]
  }

  /** Number(text) on decimals of at most two places; blank reads as zero. */
  function ReadPrice(text: string): Option<nat> {
    var parts := Split(Trim(text), '.');
    if Trim(text) == "" then Some(0)
    else if !(forall p :: p in parts ==> p != "" && AllDigits(p)) then None
    else if |parts| == 1 then Some(100 * Value(parts[0]))
    else if |parts| == 2 && |parts[1]| == 1 then Some(100 * Value(parts[0]) + 10 * Value(parts[1]))
    else if |parts| == 2 && |parts[1]| == 2 then Some(100 * Value(parts[0]) + Value(parts[1]))
    else None
  }

  /** Comma-separated keys, trimmed, blanks dropped, each kept once, in order. */
  function ReadModules(s: string): seq<string> { Kept(TrimEach(Split(s, ','))) }

  function TrimEach(parts: seq<string>): (r: seq<string>)
    ensures |r| == |parts|
  {
    seq(|parts|, i requires 0 <= i < |parts| => Trim(parts[i]))
  }

  function Kept(parts: seq<string>): (r: seq<string>)
    ensures forall x :: x in r <==> x in parts && x != ""
    ensures forall i, j :: 0 <= i < j < |r| ==> r[i] != r[j]
  {
    if parts == [] then []
    else
      var front := Kept(parts[..|parts| - 1]);
      var last := parts[|parts| - 1];
      assert parts == parts[..|parts| - 1] + [last];
      if last == "" || last in front then front else front + [last]
  }

  const INTERVALS: seq<string> := ["month", "year"]
  const STATUSES: seq<string> := ["draft", "active", "deprecated", "archived"]
  const KINDS: seq<string> := ["information", "warning", "maintenance", "critical"]

  // ---------------------------------------------------------------------------------------------
  // Form schemas
  // ---------------------------------------------------------------------------------------------

  function ReadPlan(f: Form): Option<Patch>
    requires f.PlanForm?
  {
    match (ReadPrice(f.price), ReadCurrency(f.currency), ReadInt(f.displayOrder))
    case (Some(price), Some(currency), Some(order)) =>
      if Trim(f.name) != "" && f.interval in INTERVALS && f.status in STATUSES then
        Some(PlanPatch(Trim(f.name), EmptyToNone(Trim(f.description)), price, f.interval, currency, f.status, order,
                       f.marketingVisible))
      else None
    case _ => None
  }

  function ReadFlag(f: Form): Option<Patch>
    requires f.FlagForm?
  {
    match (ReadText(f.description, 0, 2000), ReadDate(f.from), ReadDate(f.to))
    case (Some(description), Some(from), Some(to)) =>
      if InOrder(from, to) then Some(FlagPatch(EmptyToNone(description), f.enabled, from, to)) else None
    case _ => None
  }

  /** Maintenance fields are cleared unless the form says the announcement is about maintenance. */
  function ReadNotice(f: Form): Option<Patch>
    requires f.NoticeForm?
  {
    match (ReadText(f.title, 1, 200), ReadText(f.message, 1, 5000))
    case (Some(title), Some(message)) =>
      (match (ReadDate(f.publishAt), ReadDate(f.expireAt), ReadDate(f.maintenanceStart), ReadDate(f.maintenanceEnd))
       case (Some(publish), Some(expire), Some(start), Some(end)) =>
         if f.kind in KINDS && InOrder(publish, expire) && InOrder(start, end) then
           if f.kind == "maintenance" then
             Some(NoticePatch(title, message, publish, expire, start, end, ReadModules(f.modules), f.enabled))
           else Some(NoticePatch(title, message, publish, expire, None, None, [], f.enabled))
         else None
       case _ => None)
    case _ => None
  }

  function ReadRequiredPolicies(f: Form): Option<(int, int, string, string)>
    requires f.PolicyForm?
  {
    match (ReadPositive(f.passwordMinLength), ReadPositive(f.apiPerMinute), ReadText(f.timezone, 1, 100),
           ReadCurrency(f.currency))
    case (Some(password), Some(api), Some(timezone), Some(currency)) => Some((password, api, timezone, currency))
    case _ => None
  }

  predicate OptionalsRead(f: Form)
    requires f.PolicyForm?
  {
    && ReadOptionalPositive(f.sessionMinutes).Some? && ReadOptionalPositive(f.maxFileSizeMb).Some?
    && ReadOptionalPositive(f.dataRetentionDays).Some? && ReadOptionalPositive(f.auditRetentionDays).Some?
    && ReadOptionalPositive(f.aiPerMinute).Some? && ReadOptionalPositive(f.webhooksPerMinute).Some?
    && ReadOptionalPositive(f.importsPerHour).Some? && ReadOptionalPositive(f.exportsPerHour).Some?
    && ReadOptionalPositive(f.automationPerMinute).Some?
  }

  function ReadPolicies(f: Form): Option<Patch>
    requires f.PolicyForm?
  {
    match ReadRequiredPolicies(f)
    case Some((password, api, timezone, currency)) =>
      if OptionalsRead(f) then
        Some(PolicyPatch(Policies(
          ReadOptionalPositive(f.sessionMinutes).value, password, f.requireUppercase, f.requireNumber,
          f.requireSymbol, ReadOptionalPositive(f.maxFileSizeMb).value, timezone, currency,
          ReadOptionalPositive(f.dataRetentionDays).value, ReadOptionalPositive(f.auditRetentionDays).value, api,
          ReadOptionalPositive(f.aiPerMinute).value, ReadOptionalPositive(f.webhooksPerMinute).value,
          ReadOptionalPositive(f.importsPerHour).value, ReadOptionalPositive(f.exportsPerHour).value,
          ReadOptionalPositive(f.automationPerMinute).value)))
      else None
    case None => None
  }

  /** What a form writes, or None when its schema refuses it. */
  function ReadForm(f: Form): Option<Patch> {
    match f
    case PlanForm(_, _, _, _, _, _, _, _) => ReadPlan(f)
    case FlagForm(_, _, _, _) => ReadFlag(f)
    case NoticeForm(_, _, _, _, _, _, _, _, _) => ReadNotice(f)
    case PolicyForm(_, _, _, _, _, _, _, _, _, _, _, _, _, _, _, _) => ReadPolicies(f)
  }

  // ---------------------------------------------------------------------------------------------
  // From a stored version back to a form
  // ---------------------------------------------------------------------------------------------

  function DateOf(t: Option<Time>): DateInput { if t.Some? then Instant(t.value) else Blank }

  function NumberText(n: Option<int>): string { if n.Some? then IntText(n.value) else "" }

  /** restorePlanFromSnapshot and its three siblings. */
  function FormOf(row: Row): Form {
    match row.patch
    case PlanPatch(name, description, price, interval, currency, status, order, visible) =>
      PlanForm(name, description.GetOr(""), PriceText(price), interval, currency, status, IntText(order), visible)
    case FlagPatch(description, enabled, from, to) =>
      FlagForm(description.GetOr(""), enabled, DateOf(from), DateOf(to))
    case NoticePatch(title, message, publish, expire, start, end, modules, enabled) =>
      NoticeForm(if row.identity.NoticeIdentity? then row.identity.kind else "", title, message, DateOf(publish),
                 DateOf(expire), DateOf(start), DateOf(end), Join(modules, ","), enabled)
    case PolicyPatch(p) =>
      PolicyForm(NumberText(p.sessionMinutes), IntText(p.passwordMinLength), p.requireUppercase, p.requireNumber,
                 p.requireSymbol, NumberText(p.maxFileSizeMb), p.timezone, p.currency,
                 NumberText(p.dataRetentionDays), NumberText(p.auditRetentionDays), IntText(p.apiPerMinute),
                 NumberText(p.aiPerMinute), NumberText(p.webhooksPerMinute), NumberText(p.importsPerHour),
                 NumberText(p.exportsPerHour), NumberText(p.automationPerMinute))
  }

  // ---------------------------------------------------------------------------------------------
  // When the way back is exact
  // ---------------------------------------------------------------------------------------------

  predicate TidyText(s: string, max: nat) { s != "" && Trimmed(s) && |s| <= max }

  predicate Tidy(s: Option<string>, max: nat) { s.Some? ==> TidyText(s.value, max) }

  predicate OnMs(t: Option<Time>) { t.Some? ==> t.value % 1000 == 0 }

  predicate Positive(n: Option<int>) { n.Some? ==> n.value > 0 }

  predicate TidyModules(modules: seq<string>) {
    && (forall m :: m in modules ==> m != "" && Trimmed(m) && ',' !in m)
    && forall i, j :: 0 <= i < j < |modules| ==> modules[i] != modules[j]
  }

  /** The shape every edit through a form leaves behind. */
  predicate Canonical(row: Row) {
    match row.patch
    case PlanPatch(name, description, _, interval, currency, status, _, _) =>
      && name != "" && Trimmed(name)
      && (description.Some? ==> description.value != "" && Trimmed(description.value))
      && interval in INTERVALS && IsCurrency(currency) && status in STATUSES
    case FlagPatch(description, _, from, to) =>
      Tidy(description, 2000) && OnMs(from) && OnMs(to) && InOrder(from, to)
    case NoticePatch(title, message, publish, expire, start, end, modules, _) =>
      && TidyText(title, 200) && TidyText(message, 5000)
      && OnMs(publish) && OnMs(expire) && OnMs(start) && OnMs(end)
      && InOrder(publish, expire) && InOrder(start, end)
      && row.identity.NoticeIdentity? && row.identity.kind in KINDS
      && (if row.identity.kind == "maintenance" then TidyModules(modules)
          else start == None && end == None && modules == [])
    case PolicyPatch(p) =>
      && p.passwordMinLength > 0 && p.apiPerMinute > 0 && TidyText(p.timezone, 100) && IsCurrency(p.currency)
      && Positive(p.sessionMinutes) && Positive(p.maxFileSizeMb) && Positive(p.dataRetentionDays)
      && Positive(p.auditRetentionDays) && Positive(p.aiPerMinute) && Positive(p.webhooksPerMinute)
      && Positive(p.importsPerHour) && Positive(p.exportsPerHour) && Positive(p.automationPerMinute)
  }

  lemma TrimFixed(s: string)
    ensures Trim(s) == s <==> Trimmed(s)
  {
    TrimTwice(s);
    if Trimmed(s) { TrimKeepsTrimmed(s); }
  }

  /** Each small letter becomes its capital, and nothing else changes. */
  lemma {:induction false} UpperMeans(s: string)
    ensures forall i :: 0 <= i < |s| ==>
      if 'a' <= s[i] <= 'z' then 'A' <= Upper(s)[i] <= 'Z' && Upper(s)[i] - 'A' == s[i] - 'a' else Upper(s)[i] == s[i]
  {
    if s != "" {
      UpperMeans(s[1..]);
      forall i | 1 <= i < |s| ensures Upper(s)[i] == Upper(s[1..])[i - 1] && s[i] == s[1..][i - 1] {}
    }
  }

  predicate IsLetter(c: char) { 'a' <= c <= 'z' || 'A' <= c <= 'Z' }

  /** A currency code is three letters, large or small, with any white space around them; it reads as the capitals. */
  lemma CurrencyReadsIff(s: string)
    ensures ReadCurrency(s).Some? <==> |Trim(s)| == 3 && forall i :: 0 <= i < 3 ==> IsLetter(Trim(s)[i])
    ensures ReadCurrency(s).Some? ==> ReadCurrency(s).value == Upper(Trim(s)) && IsCurrency(ReadCurrency(s).value)
  {
    hide Upper, Trim;
    UpperMeans(Trim(s));
  }

  /** A price as it may be written: digits, and up to two decimal places. */
  function PriceWritten(whole: string, places: string): string {
    if places == "" then whole else whole + ['.'] + places
  }

  /** However a price is written, with white space around it, leading zeros, and none, one or two decimal places, it
      reads as the hundredths it names; a blank text reads as nothing. */
  lemma PriceTextReads(before: string, whole: string, places: string, after: string)
    requires Text.Blank(before) && Text.Blank(after) && whole != "" && AllDigits(whole) && AllDigits(places)
    requires |places| <= 2
    ensures ReadPrice(before + (PriceWritten(whole, places) + after)) == Some(Value(whole) * 100
      + (if |places| == 2 then Value(places) else if |places| == 1 then 10 * Value(places) else 0))
    ensures ReadPrice(before) == Some(0)
  {
    hide Trim, Split, IsSpace, PriceWritten, Text.Blank, AllDigits, Value;
    PriceWrittenTrimmed(whole, places);
    TrimPadded(before, PriceWritten(whole, places), after);
    TrimEmptyIffBlank(before);
    PriceSplits(whole, places);
  }

  ghost predicate WrittenPrice(text: string, before: string, whole: string, places: string, after: string) {
    && text == before + (PriceWritten(whole, places) + after) && Text.Blank(before) && Text.Blank(after)
    && whole != "" && AllDigits(whole) && AllDigits(places) && |places| <= 2
  }

  /** And nothing else reads as a price. */
  lemma PriceTextIff(text: string)
    ensures ReadPrice(text).Some? <==>
      Text.Blank(text) || exists before, whole, places, after :: WrittenPrice(text, before, whole, places, after)
  {
    hide Trim, IsSpace, AllDigits, Split, Text.Blank, Join, Value;
    TrimEmptyIffBlank(text);
    if ReadPrice(text).Some? && Trim(text) != "" {
      var before, after := TrimMeaning(text);
      var parts := Split(Trim(text), '.');
      JoinSplit(Trim(text), '.');
      assert forall p :: p in parts ==> p != "" && AllDigits(p);
      assert parts[0] in parts;
      if |parts| == 2 { assert parts[1] in parts; }
      var places := if |parts| == 2 then parts[1] else "";
      assert AllDigits("") by { NoDigits(); }
      JoinedPrice(parts);
      assert text == before + (Trim(text) + after);
      assert WrittenPrice(text, before, parts[0], places, after);
    }
    forall before, whole, places, after | WrittenPrice(text, before, whole, places, after)
      ensures ReadPrice(text).Some?
    {
      PriceTextReads(before, whole, places, after);
    }
  }

  lemma NoDigits()
    ensures AllDigits("")
  {}

  lemma JoinedPrice(parts: seq<string>)
    requires |parts| == 1 || (|parts| == 2 && parts[1] != "")
    ensures Join(parts, ['.']) == PriceWritten(parts[0], if |parts| == 2 then parts[1] else "")
  {}

  /** A date that cannot be read refuses the form. */
  lemma UnreadableDateIsRefused(f: Form)
    requires f.FlagForm? || f.NoticeForm?
    requires f.FlagForm? ==> Unreadable in {f.from, f.to}
    requires f.NoticeForm? ==> Unreadable in {f.publishAt, f.expireAt, f.maintenanceStart, f.maintenanceEnd}
    ensures ReadForm(f).None?
  {
    hide ReadText, ReadModules, InOrder;
  }

  lemma PriceWrittenTrimmed(whole: string, places: string)
    requires whole != "" && AllDigits(whole) && AllDigits(places)
    ensures PriceWritten(whole, places) != "" && Trimmed(PriceWritten(whole, places))
  {
    hide IsSpace;
    NoDigitIsSpace();
    assert IsDigit(whole[0]) && IsDigit(whole[|whole| - 1]);
    assert places != "" ==> IsDigit(places[|places| - 1]);
  }

  lemma PriceSplits(whole: string, places: string)
    requires AllDigits(whole) && AllDigits(places)
    ensures Split(PriceWritten(whole, places), '.') == if places == "" then [whole] else [whole, places]
  {
    hide Split;
    SplitWhole(whole, '.');
    if places != "" {
      SplitAt(whole, '.', places);
      SplitWhole(places, '.');
    }
  }

  lemma {:induction false} UpperFixed(s: string)
    requires forall i :: 0 <= i < |s| ==> 'A' <= s[i] <= 'Z'
    ensures Upper(s) == s
  {
    if s != "" {
      UpperFixed(s[1..]);
      assert s == [s[0]] + s[1..];
    }
  }

  lemma CurrencyReads(s: string)
    ensures ReadCurrency(s) == Some(s) <==> IsCurrency(s)
  {
    if IsCurrency(s) {
      TrimKeepsTrimmed(s);
      UpperFixed(s);
    }
  }

  lemma TextReads(s: string, min: nat, max: nat)
    ensures ReadText(s, min, max) == Some(s) <==> Trimmed(s) && min <= |s| <= max
  {
    TrimFixed(s);
  }

  /** null, the empty string and back. */
  lemma OptionalTextReads(s: Option<string>)
    ensures EmptyToNone(Trim(s.GetOr(""))) == s <==> (s.Some? ==> s.value != "" && Trimmed(s.value))
  {
    TrimFixed(s.GetOr(""));
    TrimKeepsTrimmed("");
  }

  lemma DateReads(t: Option<Time>)
    ensures ReadDate(DateOf(t)) == Some(t) <==> OnMs(t)
    ensures ReadDate(DateOf(t)).Some?
  {}

  lemma OptionalPositiveReads(n: Option<int>)
    ensures ReadOptionalPositive(NumberText(n)) == Some(n) <==> Positive(n)
    ensures ReadOptionalPositive(NumberText(n)).Some? <==> Positive(n)
  {
    if n.Some? {
      ReadIntText(n.value);
      TrimKeepsTrimmed(IntText(n.value));
    } else {
      TrimKeepsTrimmed("");
    }
  }

  lemma DigitValue(d: nat)
    requires d < 10
    ensures AllDigits([DigitChar(d)]) && Value([DigitChar(d)]) == d
  {
    assert [DigitChar(d)][..0] == "";
    assert Value("") == 0;
  }

  lemma TwoDigitValue(a: nat, b: nat)
    requires a < 10 && b < 10
    ensures var s := [DigitChar(a), DigitChar(b)]; AllDigits(s) && Value(s) == 10 * a + b
  {
    var s := [DigitChar(a), DigitChar(b)];
    assert s[..1] == [DigitChar(a)];
    DigitValue(a);
  }

  /** Every price reads back from its text. */
  lemma PriceReads(cents: nat)
    ensures ReadPrice(PriceText(cents)) == Some(cents)
  {
    hide Value, Split, Trim, Digits, AllDigits, ReadPrice, PriceText;
    var whole, a, b := Digits(cents / 100), cents / 10 % 10, cents % 10;
    ValueOfDigits(cents / 100);
    PriceTextIs(cents);
    PriceTextTrims(cents);
    if cents % 100 == 0 {
      DigitsLackDots(whole);
      SplitWhole(whole, '.');
      ReadWholePrice(whole);
    } else if b == 0 {
      DigitValue(a);
      ReadSplitPrice(whole, [DigitChar(a)]);
    } else {
      TwoDigitValue(a, b);
      ReadSplitPrice(whole, [DigitChar(a), DigitChar(b)]);
    }
  }

  lemma CentsParts(cents: nat)
    ensures cents == 100 * (cents / 100) + 10 * (cents / 10 % 10) + cents % 10
    ensures cents % 100 == 10 * (cents / 10 % 10) + cents % 10
  {
    assert cents / 10 == 10 * (cents / 100) + cents / 10 % 10;
  }

  lemma PriceTextIs(cents: nat)
    ensures var whole, a, b := Digits(cents / 100), cents / 10 % 10, cents % 10;
      && cents == 100 * (cents / 100) + 10 * a + b
      && (cents % 100 == 0 <==> a == 0 && b == 0)
      && PriceText(cents) == if cents % 100 == 0 then whole
                             else if b == 0 then whole + "." + [DigitChar(a)]
                             else whole + "." + [DigitChar(a), DigitChar(b)]
  {
    hide Digits, DigitChar;
    CentsParts(cents);
  }

  lemma DigitsLackDots(s: string)
    requires AllDigits(s)
    ensures '.' !in s
  {}

  lemma ReadWholePrice(whole: string)
    requires whole != "" && AllDigits(whole) && Trim(whole) == whole && Split(whole, '.') == [whole]
    ensures ReadPrice(whole) == Some(100 * Value(whole))
  {
    hide Value, Split, Trim;
  }

  lemma ReadSplitPrice(whole: string, fraction: string)
    requires whole != "" && AllDigits(whole) && AllDigits(fraction) && 1 <= |fraction| <= 2
    requires Trim(whole + "." + fraction) == whole + "." + fraction
    ensures ReadPrice(whole + "." + fraction)
         == Some(100 * Value(whole) + (if |fraction| == 1 then 10 * Value(fraction) else Value(fraction)))
  {
    hide Value, Split, Trim, AllDigits;
    DigitsLackDots(whole);
    DigitsLackDots(fraction);
    SplitAt(whole, '.', fraction);
    SplitWhole(fraction, '.');
    assert [whole] + [fraction] == [whole, fraction];
  }

  lemma PriceTextTrims(cents: nat)
    ensures PriceText(cents) != "" && Trim(PriceText(cents)) == PriceText(cents)
  {
    hide Trim, Digits;
    var text := PriceText(cents);
    assert forall i :: 0 <= i < |text| ==> IsDigit(text[i]) || text[i] == '.';
    DigitsAreInk(text);
    TrimKeepsTrimmed(text);
  }

  lemma DigitsAreInk(s: string)
    requires s != "" && forall i :: 0 <= i < |s| ==> IsDigit(s[i]) || s[i] == '.'
    ensures Trimmed(s)
  {
    assert IsDigit(s[0]) || s[0] == '.';
    assert IsDigit(s[|s| - 1]) || s[|s| - 1] == '.';
  }

  lemma {:induction false} KeptAll(parts: seq<string>)
    requires forall p :: p in parts ==> p != ""
    requires forall i, j :: 0 <= i < j < |parts| ==> parts[i] != parts[j]
    ensures Kept(parts) == parts
  {
    if parts != [] {
      var front, last := parts[..|parts| - 1], parts[|parts| - 1];
      assert parts == front + [last];
      assert forall p :: p in front ==> p in parts;
      assert last in parts;
      KeptAll(front);
      assert forall i :: 0 <= i < |front| ==> front[i] == parts[i] && parts[i] != parts[|parts| - 1];
    }
  }

  /** A list of module keys survives being joined with commas exactly when it is tidy. */
  lemma ModulesRead(modules: seq<string>)
    ensures ReadModules(Join(modules, ",")) == modules <==> TidyModules(modules)
  {
    hide Trim, Split, Join, Trimmed;
    var joined := Join(modules, ",");
    var parts := Split(joined, ',');
    JoinSplit(joined, ',');
    forall m | m in ReadModules(joined) ensures m != "" && Trimmed(m) && ',' !in m {
      assert m in TrimEach(parts);
      var i :| 0 <= i < |parts| && m == TrimEach(parts)[i];
      TrimTwice(parts[i]);
      TrimLacks(parts[i], ',');
    }
    if TidyModules(modules) {
      if modules == [] {
        NoModules();
      } else {
        SplitJoin(modules, ',');
        forall i | 0 <= i < |modules| ensures Trim(modules[i]) == modules[i] {
          assert modules[i] in modules;
          TrimKeepsTrimmed(modules[i]);
        }
        assert TrimEach(modules) == modules;
        KeptAll(modules);
      }
    }
  }

  lemma NoModules()
    ensures ReadModules(Join([], ",")) == []
  {
    TrimKeepsTrimmed("");
    assert Split("", ',') == [""];
    assert TrimEach([""]) == [""];
    assert [""][..0] == [];
  }

  lemma TrimLacks(s: string, c: char)
    requires c !in s
    ensures c !in Trim(s)
  {}

  lemma PlanReadsBack(row: Row)
    requires row.patch.PlanPatch?
    ensures ReadForm(FormOf(row)) == Some(row.patch) <==> Canonical(row)
  {
    hide ReadPrice, PriceText, ReadCurrency, IsCurrency, ReadInt, IntText, Trim, Trimmed;
    var p := row.patch;
    PriceReads(p.price);
    CurrencyReads(p.currency);
    ReadIntText(p.displayOrder);
    TrimFixed(p.name);
    OptionalTextReads(p.description);
  }

  lemma FlagReadsBack(row: Row)
    requires row.patch.FlagPatch?
    ensures ReadForm(FormOf(row)) == Some(row.patch) <==> Canonical(row)
  {
    hide Trim, Trimmed;
    var p := row.patch;
    DateReads(p.from);
    DateReads(p.to);
    OptionalTextReads(p.flagDescription);
    TextReads(p.flagDescription.GetOr(""), 0, 2000);
    TrimFixed(p.flagDescription.GetOr(""));
  }

  lemma NoticeReadsBack(row: Row)
    requires row.patch.NoticePatch? && row.identity.NoticeIdentity?
    ensures ReadForm(FormOf(row)) == Some(row.patch) <==> Canonical(row)
  {
    hide ReadText, Trimmed, ReadModules, TidyModules, ReadDate, OnMs, KINDS;
    var p := row.patch;
    DateReads(p.publishAt);
    DateReads(p.expireAt);
    DateReads(p.maintenanceStart);
    DateReads(p.maintenanceEnd);
    TextReads(p.title, 1, 200);
    TextReads(p.message, 1, 5000);
    ModulesRead(p.modules);
    NoDateReads();
  }

  lemma NoDateReads()
    ensures ReadDate(Blank) == Some(None) && OnMs(None)
  {}

  lemma PolicyReadsBack(row: Row)
    requires row.patch.PolicyPatch?
    ensures ReadForm(FormOf(row)) == Some(row.patch) <==> Canonical(row)
  {
    hide ReadText, Trimmed, ReadCurrency, IsCurrency, ReadOptionalPositive, NumberText, ReadInt, IntText, Positive;
    var p := row.patch.policies;
    ReadIntText(p.passwordMinLength);
    ReadIntText(p.apiPerMinute);
    TextReads(p.timezone, 1, 100);
    CurrencyReads(p.currency);
    OptionalPositiveReads(p.sessionMinutes);
    OptionalPositiveReads(p.maxFileSizeMb);
    OptionalPositiveReads(p.dataRetentionDays);
    OptionalPositiveReads(p.auditRetentionDays);
    OptionalPositiveReads(p.aiPerMinute);
    OptionalPositiveReads(p.webhooksPerMinute);
    OptionalPositiveReads(p.importsPerHour);
    OptionalPositiveReads(p.exportsPerHour);
    OptionalPositiveReads(p.automationPerMinute);
  }

  /** Turning a stored row into form text and reading the form gives back exactly the row's editable fields
      when, and only when, the row has the shape form edits leave behind: trimmed texts, no empty text where
      null belongs, whole milliseconds, ordered windows, tidy module lists, positive numbers. */
  lemma SnapshotReadsBack(row: Row)
    requires Matched(row)
    ensures ReadForm(FormOf(row)) == Some(row.patch) <==> Canonical(row)
  {
    hide ReadForm, FormOf, Canonical;
    match row.patch
    case PlanPatch(_, _, _, _, _, _, _, _) => PlanReadsBack(row);
    case FlagPatch(_, _, _, _) => FlagReadsBack(row);
    case NoticePatch(_, _, _, _, _, _, _, _) => NoticeReadsBack(row);
    case PolicyPatch(_) => PolicyReadsBack(row);
  }

  /** An announcement's type is known, and only maintenance has a window and modules. */
  predicate FitsType(row: Row) {
    row.patch.NoticePatch? && row.identity.NoticeIdentity? ==>
      && row.identity.kind in KINDS
      && (row.identity.kind != "maintenance" ==>
            row.patch.maintenanceStart == None && row.patch.maintenanceEnd == None && row.patch.modules == [])
  }

  /** Whatever a form says, of whatever type it claims to be, what it writes is canonical exactly when it fits the
      type of the row it is written to. */
  lemma WrittenIsCanonical(f: Form, row: Row)
    requires ReadForm(f) == Some(row.patch) && Matched(row)
    ensures Canonical(row) <==> FitsType(row)
  {
    hide ReadForm, Canonical, FitsType;
    match f
    case PlanForm(_, _, _, _, _, _, _, _) => WrittenPlan(f, row);
    case FlagForm(_, _, _, _) => WrittenFlag(f, row);
    case NoticeForm(_, _, _, _, _, _, _, _, _) => WrittenNotice(f, row);
    case PolicyForm(_, _, _, _, _, _, _, _, _, _, _, _, _, _, _, _) => WrittenPolicies(f, row);
  }

  lemma WrittenPlan(f: Form, row: Row)
    requires f.PlanForm? && ReadForm(f) == Some(row.patch)
    ensures Canonical(row) && FitsType(row)
  {
    hide Trim, Trimmed, Upper, ReadInt, ReadPrice, IsCurrency;
    TrimTwice(f.name);
    TrimTwice(f.description);
  }

  lemma WrittenFlag(f: Form, row: Row)
    requires f.FlagForm? && ReadForm(f) == Some(row.patch)
    ensures Canonical(row) && FitsType(row)
  {
    hide Trim, Trimmed;
    TrimTwice(f.description);
  }

  lemma NoticeFields(f: Form)
    requires f.NoticeForm? && ReadNotice(f).Some?
    ensures ReadNotice(f).value.NoticePatch?
    ensures var p := ReadNotice(f).value;
      && TidyText(p.title, 200) && TidyText(p.message, 5000) && TidyModules(p.modules)
      && OnMs(p.publishAt) && OnMs(p.expireAt) && OnMs(p.maintenanceStart) && OnMs(p.maintenanceEnd)
      && InOrder(p.publishAt, p.expireAt) && InOrder(p.maintenanceStart, p.maintenanceEnd)
  {
    hide Trim, Trimmed, TidyModules, ReadModules, KINDS, ReadText, TidyText, ReadDate, OnMs, InOrder;
    ReadTextTidy(f.title, 1, 200);
    ReadTextTidy(f.message, 1, 5000);
    ReadDateOnMs(f.publishAt);
    ReadDateOnMs(f.expireAt);
    ReadDateOnMs(f.maintenanceStart);
    ReadDateOnMs(f.maintenanceEnd);
    NoWindow(None, None);
    ReadModulesTidy(f.modules);
    NoModulesAreTidy();
  }

  lemma ReadTextTidy(s: string, min: nat, max: nat)
    requires min > 0
    ensures ReadText(s, min, max).Some? ==> TidyText(ReadText(s, min, max).value, max)
  {
    hide Trim, Trimmed;
    TrimTwice(s);
  }

  lemma ReadDateOnMs(d: DateInput)
    ensures ReadDate(d).Some? ==> OnMs(ReadDate(d).value)
  {}

  lemma WrittenNotice(f: Form, row: Row)
    requires f.NoticeForm? && ReadForm(f) == Some(row.patch) && Matched(row)
    ensures Canonical(row) <==> FitsType(row)
  {
    hide ReadNotice, TidyText, OnMs, InOrder, TidyModules, KINDS;
    NoticeFields(f);
    var p := row.patch;
    NoWindow(p.maintenanceStart, p.maintenanceEnd);
  }

  lemma NoWindow(start: Option<Time>, end: Option<Time>)
    ensures start == None && end == None ==> InOrder(start, end) && OnMs(start) && OnMs(end)
  {}

  lemma WrittenPolicies(f: Form, row: Row)
    requires f.PolicyForm? && ReadForm(f) == Some(row.patch)
    ensures Canonical(row) && FitsType(row)
  {
    hide ReadPolicies;
    PoliciesPositive(f);
  }

  lemma NoModulesAreTidy()
    ensures TidyModules([])
  {}

  lemma ReadModulesTidy(s: string)
    ensures TidyModules(ReadModules(s))
  {
    hide Trim, Split, Trimmed;
    var parts := Split(s, ',');
    JoinSplit(s, ',');
    forall m | m in ReadModules(s) ensures m != "" && Trimmed(m) && ',' !in m {
      assert m in TrimEach(parts);
      var i :| 0 <= i < |parts| && m == TrimEach(parts)[i];
      TrimTwice(parts[i]);
      TrimLacks(parts[i], ',');
    }
  }

  lemma PositiveWhenRead(t: string)
    ensures ReadOptionalPositive(t).Some? ==> Positive(ReadOptionalPositive(t).value)
  {}

  lemma PoliciesPositive(f: Form)
    requires f.PolicyForm? && ReadPolicies(f).Some?
    ensures Canonical(Row(PolicyIdentity, ReadPolicies(f).value, None))
  {
    hide ReadOptionalPositive, Positive, Trim, Trimmed, Upper, ReadInt;
    TrimTwice(f.timezone);
    PositiveWhenRead(f.sessionMinutes);
    PositiveWhenRead(f.maxFileSizeMb);
    PositiveWhenRead(f.dataRetentionDays);
    PositiveWhenRead(f.auditRetentionDays);
    PositiveWhenRead(f.aiPerMinute);
    PositiveWhenRead(f.webhooksPerMinute);
    PositiveWhenRead(f.importsPerHour);
    PositiveWhenRead(f.exportsPerHour);
    PositiveWhenRead(f.automationPerMinute);
  }
}
