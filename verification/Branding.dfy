/** Platform branding: the form, its schema and the draft and publish steps of
    packages/core/src/admin/platform-branding.ts, over the singleton row of 20260911010000_platform_branding.sql,
    20260911020000_platform_login_branding.sql and 20260912020000_platform_branding_draft.sql. */
module Branding {
  import opened Text
  import opened SnapshotForms

  datatype Style = Gradient | Solid | Image

  /** Validated values: what a draft holds and what the published record shows. */
  datatype Values = Values(
    platformName: string, logoUrl: Option<string>, faviconUrl: Option<string>, primaryColor: string,
    secondaryColor: Option<string>, accentColor: Option<string>, loginHeadline: Option<string>,
    loginSupportText: Option<string>, emailFromName: Option<string>, footerText: Option<string>,
    supportEmail: Option<string>, supportUrl: Option<string>, loginBackgroundStyle: Style,
    loginBackgroundValue: Option<string>, loginTermsUrl: Option<string>, loginPrivacyUrl: Option<string>)

  /** What the form submits; the style is None when its text names no style. */
  datatype Form = Form(
    platformName: string, logoUrl: string, faviconUrl: string, primaryColor: string, secondaryColor: string,
    accentColor: string, loginHeadline: string, loginSupportText: string, emailFromName: string,
    footerText: string, supportEmail: string, supportUrl: string, loginBackgroundStyle: Option<Style>,
    loginBackgroundValue: string, loginTermsUrl: string, loginPrivacyUrl: string)

  /** The live columns of the row. */
  datatype Columns = Columns(
    platform_name: string, logo_url: Option<string>, favicon_url: Option<string>, primary_color: string,
    secondary_color: Option<string>, accent_color: Option<string>, login_headline: Option<string>,
    login_support_text: Option<string>, email_from_name: Option<string>, footer_text: Option<string>,
    support_email: Option<string>, support_url: Option<string>, login_background_style: Style,
    login_background_value: Option<string>, login_terms_url: Option<string>, login_privacy_url: Option<string>)

  function ToBranding(row: Columns): Values {
    Values(row.platform_name, row.logo_url, row.favicon_url, row.primary_color, row.secondary_color,
           row.accent_color, row.login_headline, row.login_support_text, row.email_from_name, row.footer_text,
           row.support_email, row.support_url, row.login_background_style, row.login_background_value,
           row.login_terms_url, row.login_privacy_url)
  }

  function ToRowUpdate(v: Values): Columns {
    Columns(v.platformName, v.logoUrl, v.faviconUrl, v.primaryColor, v.secondaryColor, v.accentColor,
            v.loginHeadline, v.loginSupportText, v.emailFromName, v.footerText, v.supportEmail, v.supportUrl,
            v.loginBackgroundStyle, v.loginBackgroundValue, v.loginTermsUrl, v.loginPrivacyUrl)
  }

  function ToInput(v: Values): Form {
    Form(v.platformName, v.logoUrl.GetOr(""), v.faviconUrl.GetOr(""), v.primaryColor, v.secondaryColor.GetOr(""),
         v.accentColor.GetOr(""), v.loginHeadline.GetOr(""), v.loginSupportText.GetOr(""),
         v.emailFromName.GetOr(""), v.footerText.GetOr(""), v.supportEmail.GetOr(""), v.supportUrl.GetOr(""),
         Some(v.loginBackgroundStyle), v.loginBackgroundValue.GetOr(""), v.loginTermsUrl.GetOr(""),
         v.loginPrivacyUrl.GetOr(""))
  }

  // ---------------------------------------------------------------------------------------------
  // The schema
  // ---------------------------------------------------------------------------------------------

  /** What counts as an email address is the validation library's business. */
  type EmailRule = string -> bool

  predicate IsHexDigit(c: char) { '0' <= c <= '9' || 'a' <= c <= 'f' || 'A' <= c <= 'F' }

  /** ^#[0-9a-fA-F]{6}$ */
  predicate IsHex(s: string) {
    |s| == 7 && s[0] == '#' && forall i :: 1 <= i < 7 ==> IsHexDigit(s[i])
  }

  /** ^https?:// */
  predicate IsUrl(s: string) { StartsWith(s, "http://") || StartsWith(s, "https://") }

  predicate BackgroundFits(style: Style, value: string) {
    match style
    case Image => IsUrl(value)
    case Solid => IsHex(value)
    case Gradient => |value| == 15 && IsHex(value[..7]) && value[7] == ',' && IsHex(value[8..])
  }

  /** Trimmed, and null when nothing is left. */
  function Clean(s: string): Option<string> { EmptyToNone(Trim(s)) }

  predicate UrlOrNull(s: Option<string>) { s.Some? ==> IsUrl(s.value) }

  predicate HexOrNull(s: Option<string>) { s.Some? ==> IsHex(s.value) }

  /** The patterns the values must match. */
  predicate Matches(email: EmailRule, v: Values) {
    && UrlOrNull(v.logoUrl) && UrlOrNull(v.faviconUrl) && UrlOrNull(v.supportUrl)
    && UrlOrNull(v.loginTermsUrl) && UrlOrNull(v.loginPrivacyUrl)
    && IsHex(v.primaryColor) && HexOrNull(v.secondaryColor) && HexOrNull(v.accentColor)
    && (v.supportEmail.Some? ==> email(v.supportEmail.value))
    && (v.loginBackgroundValue.Some? ==> BackgroundFits(v.loginBackgroundStyle, v.loginBackgroundValue.value))
    && v.platformName != ""
  }

  /** The submitted fields, trimmed, with null for the blank ones. */
  function Cleaned(f: Form): Values
    requires f.loginBackgroundStyle.Some?
  {
    Values(Trim(f.platformName), Clean(f.logoUrl), Clean(f.faviconUrl), Trim(f.primaryColor),
           Clean(f.secondaryColor), Clean(f.accentColor), Clean(f.loginHeadline), Clean(f.loginSupportText),
           Clean(f.emailFromName), Clean(f.footerText), Clean(f.supportEmail), Clean(f.supportUrl),
           f.loginBackgroundStyle.value, Clean(f.loginBackgroundValue), Clean(f.loginTermsUrl),
           Clean(f.loginPrivacyUrl))
  }

  /** platformBrandingInputSchema. */
  function Parse(email: EmailRule, f: Form): Option<Values> {
    if f.loginBackgroundStyle.None? || !Matches(email, Cleaned(f)) then None else Some(Cleaned(f))
  }

  predicate TidyOrNull(s: Option<string>) { s.Some? ==> s.value != "" && Trimmed(s.value) }

  predicate AllTidy(v: Values) {
    && Trimmed(v.platformName) && Trimmed(v.primaryColor)
    && TidyOrNull(v.logoUrl) && TidyOrNull(v.faviconUrl) && TidyOrNull(v.secondaryColor)
    && TidyOrNull(v.accentColor) && TidyOrNull(v.loginHeadline) && TidyOrNull(v.loginSupportText)
    && TidyOrNull(v.emailFromName) && TidyOrNull(v.footerText) && TidyOrNull(v.supportEmail)
    && TidyOrNull(v.supportUrl) && TidyOrNull(v.loginBackgroundValue) && TidyOrNull(v.loginTermsUrl)
    && TidyOrNull(v.loginPrivacyUrl)
  }

  /** The values the schema can produce. */
  predicate Valid(email: EmailRule, v: Values) { AllTidy(v) && Matches(email, v) }

  lemma CleanKeeps(s: Option<string>)
    ensures Clean(s.GetOr("")) == s <==> TidyOrNull(s)
  {
    hide Trim, Trimmed;
    OptionalTextReads(s);
  }

  lemma CleanIsTidy(s: string)
    ensures TidyOrNull(Clean(s))
  {
    hide Trim, Trimmed;
    TrimTwice(s);
  }

  lemma TrimKeeps(s: string)
    ensures Trim(s) == s <==> Trimmed(s)
  {
    hide Trim, Trimmed;
    TrimFixed(s);
  }

  /** Form, schema and back is the identity exactly on the values the schema can produce. */
  lemma ParseToInput(email: EmailRule, v: Values)
    ensures Parse(email, ToInput(v)) == Some(v) <==> Valid(email, v)
  {
    hide Clean, Trim, Trimmed, TidyOrNull, Matches;
    CleanKeeps(v.logoUrl); CleanKeeps(v.faviconUrl); CleanKeeps(v.secondaryColor); CleanKeeps(v.accentColor);
    CleanKeeps(v.loginHeadline); CleanKeeps(v.loginSupportText); CleanKeeps(v.emailFromName);
    CleanKeeps(v.footerText); CleanKeeps(v.supportEmail); CleanKeeps(v.supportUrl);
    CleanKeeps(v.loginBackgroundValue); CleanKeeps(v.loginTermsUrl); CleanKeeps(v.loginPrivacyUrl);
    TrimKeeps(v.platformName);
    TrimKeeps(v.primaryColor);
  }

  lemma ParsedIsValid(email: EmailRule, f: Form)
    ensures Parse(email, f).Some? ==> Valid(email, Parse(email, f).value)
  {
    hide Clean, Trim, Trimmed, TidyOrNull, Matches;
    if Parse(email, f).Some? {
      CleanIsTidy(f.logoUrl); CleanIsTidy(f.faviconUrl); CleanIsTidy(f.secondaryColor); CleanIsTidy(f.accentColor);
      CleanIsTidy(f.loginHeadline); CleanIsTidy(f.loginSupportText); CleanIsTidy(f.emailFromName);
      CleanIsTidy(f.footerText); CleanIsTidy(f.supportEmail); CleanIsTidy(f.supportUrl);
      CleanIsTidy(f.loginBackgroundValue); CleanIsTidy(f.loginTermsUrl); CleanIsTidy(f.loginPrivacyUrl);
      TrimTwice(f.platformName);
      TrimTwice(f.primaryColor);
    }
  }

  /** Validating what was validated, through the form it prefills, changes nothing. */
  lemma ParseTwice(email: EmailRule, f: Form)
    requires Parse(email, f).Some?
    ensures Parse(email, ToInput(Parse(email, f).value)) == Parse(email, f)
  {
    hide Parse, Valid, ToInput;
    ParsedIsValid(email, f);
    ParseToInput(email, Parse(email, f).value);
  }

  /** The column mappings are inverse to each other. */
  lemma ColumnsReadBack(v: Values, row: Columns)
    ensures ToBranding(ToRowUpdate(v)) == v && ToRowUpdate(ToBranding(row)) == row
  {}

  // ---------------------------------------------------------------------------------------------
  // The table's own checks
  // ---------------------------------------------------------------------------------------------

  predicate AddressChar(c: char) { c != '@' && !IsSpace(c) }

  /** ^[^@\s]+@[^@\s]+\.[^@\s]+$ */
  predicate AddressShape(s: string) {
    exists at, dot :: 0 < at && at + 1 < dot < |s| - 1 && AddressAt(s, at, dot)
  }

  predicate AddressAt(s: string, at: int, dot: int)
    requires 0 < at && at + 1 < dot < |s| - 1
  {
    s[at] == '@' && s[dot] == '.' && forall i :: 0 <= i < |s| && i != at ==> AddressChar(s[i])
  }

  /** btrim(name) <> '' */
  predicate NotAllSpaces(s: string) { exists i :: 0 <= i < |s| && s[i] != ' ' }

  predicate TableAllows(row: Columns) {
    && NotAllSpaces(row.platform_name) && IsHex(row.primary_color)
    && UrlOrNull(row.logo_url) && UrlOrNull(row.favicon_url) && UrlOrNull(row.support_url)
    && UrlOrNull(row.login_terms_url) && UrlOrNull(row.login_privacy_url)
    && HexOrNull(row.secondary_color) && HexOrNull(row.accent_color)
    && (row.support_email.Some? ==> AddressShape(row.support_email.value))
    && (row.login_background_value.Some? ==>
          BackgroundFits(row.login_background_style, row.login_background_value.value))
  }

  /** Values the schema can produce meet every check of the table, as long as every address the library accepts has
      the table's shape. */
  lemma ValidFitsTable(email: EmailRule, v: Values)
    requires forall a :: email(a) ==> AddressShape(a)
    requires Valid(email, v)
    ensures TableAllows(ToRowUpdate(v))
  {
    hide TidyOrNull, IsHex, AddressShape, IsUrl, BackgroundFits;
    assert v.platformName[0] != ' ';
  }

  /** A saved draft can therefore always be published. */
  lemma SchemaFitsTable(email: EmailRule, f: Form)
    requires forall a :: email(a) ==> AddressShape(a)
    requires Parse(email, f).Some?
    ensures TableAllows(ToRowUpdate(Parse(email, f).value))
  {
    hide Parse, Valid, TableAllows, ToRowUpdate, AddressShape;
    ParsedIsValid(email, f);
    ValidFitsTable(email, Parse(email, f).value);
  }

  // ---------------------------------------------------------------------------------------------
  // What is accepted, as it is written
  // ---------------------------------------------------------------------------------------------

  /** Six hexadecimal digits. */
  predicate SixDigits(s: string) {
    |s| == 6 && forall c :: c in s ==> '0' <= c <= '9' || 'a' <= c <= 'f' || 'A' <= c <= 'F'
  }

  /** A colour is a hash and six hexadecimal digits. */
  lemma HexIff(s: string)
    ensures IsHex(s) <==> exists digits :: s == "#" + digits && SixDigits(digits)
  {
    if IsHex(s) {
      assert s == "#" + s[1..] && SixDigits(s[1..]);
    }
    forall digits | s == "#" + digits && SixDigits(digits) ensures IsHex(s) {
      forall i | 1 <= i < 7 ensures IsHexDigit(s[i]) {
        assert s[i] == digits[i - 1] && digits[i - 1] in digits;
      }
    }
  }

  /** An address of a page names one of the two protocols. */
  lemma UrlIff(s: string)
    ensures IsUrl(s) <==> exists rest :: s == "http://" + rest || s == "https://" + rest
  {
    if StartsWith(s, "http://") {
      assert s == "http://" + s[7..];
    } else if StartsWith(s, "https://") {
      assert s == "https://" + s[8..];
    }
    forall rest | s == "http://" + rest || s == "https://" + rest ensures IsUrl(s) {
      assert ("http://" + rest)[..7] == "http://" && ("https://" + rest)[..8] == "https://";
    }
  }

  /** A gradient is two colours with a comma between them; a solid background is one colour, and an image an address. */
  lemma BackgroundIff(style: Style, value: string)
    ensures BackgroundFits(style, value) <==>
      match style
      case Image => IsUrl(value)
      case Solid => IsHex(value)
      case Gradient => exists from, to :: value == from + "," + to && IsHex(from) && IsHex(to)
  {
    hide IsUrl, IsHexDigit;
    if style == Gradient && BackgroundFits(style, value) {
      assert value == value[..7] + "," + value[8..];
    }
    forall from, to | value == from + "," + to && IsHex(from) && IsHex(to) ensures BackgroundFits(Gradient, value) {
      assert value[..7] == from && value[8..] == to;
    }
  }

  /** The characters of an address but its at sign. */
  predicate Plain(s: string) { s != "" && forall c :: c in s ==> c != '@' && !IsSpace(c) }

  /** The table takes for an address a name, an at sign, and a host with a dot inside. */
  lemma AddressIff(s: string)
    ensures AddressShape(s) <==>
      exists name, host, end :: s == name + "@" + host + "." + end && Plain(name) && Plain(host) && Plain(end)
  {
    hide IsSpace;
    if AddressShape(s) {
      var at, dot :| 0 < at && at + 1 < dot < |s| - 1 && AddressAt(s, at, dot);
      AddressParts(s, at, dot);
    }
    forall name, host, end | s == name + "@" + host + "." + end && Plain(name) && Plain(host) && Plain(end)
      ensures AddressShape(s)
    {
      PartsMakeAddress(s, name, host, end);
    }
  }

  lemma AddressParts(s: string, at: int, dot: int)
    requires 0 < at && at + 1 < dot < |s| - 1 && AddressAt(s, at, dot)
    ensures s == s[..at] + "@" + s[at + 1..dot] + "." + s[dot + 1..]
    ensures Plain(s[..at]) && Plain(s[at + 1..dot]) && Plain(s[dot + 1..])
  {
    hide IsSpace;
    PlainSlice(s, at, 0, at);
    PlainSlice(s, at, at + 1, dot);
    PlainSlice(s, at, dot + 1, |s|);
    assert s[0..at] == s[..at] && s[dot + 1..|s|] == s[dot + 1..];
  }

  lemma PlainSlice(s: string, at: int, i: int, j: int)
    requires 0 <= i < j <= |s| && !(i <= at < j)
    requires forall k :: 0 <= k < |s| && k != at ==> AddressChar(s[k])
    ensures Plain(s[i..j])
  {
    hide IsSpace;
    forall c | c in s[i..j] ensures c != '@' && !IsSpace(c) {
      var k :| 0 <= k < j - i && s[i..j][k] == c;
      assert AddressChar(s[i + k]);
    }
  }

  lemma PartsMakeAddress(s: string, name: string, host: string, end: string)
    requires s == name + "@" + host + "." + end && Plain(name) && Plain(host) && Plain(end)
    ensures AddressShape(s)
  {
    hide IsSpace;
    var at, dot := |name|, |name| + 1 + |host|;
    assert !IsSpace('.') by { DotIsNoSpace(); }
    forall i | 0 <= i < |s| && i != at ensures AddressChar(s[i]) {
      if i < at {
        assert s[i] == name[i] && name[i] in name;
      } else if i < dot {
        assert s[i] == host[i - at - 1] && host[i - at - 1] in host;
      } else if i > dot {
        assert s[i] == end[i - dot - 1] && end[i - dot - 1] in end;
      }
    }
    assert AddressAt(s, at, dot);
  }

  lemma DotIsNoSpace()
    ensures !IsSpace('.')
  {}

  /** Blank, or accepted once trimmed. */
  predicate BlankOr(field: string, fits: bool) { Trim(field) == "" || fits }

  /** Which submitted forms are accepted: a name, a colour, a style that is known, and each optional field blank or as
      it must be written. */
  lemma AcceptedIff(email: EmailRule, f: Form)
    ensures Parse(email, f).Some? <==>
      && Trim(f.platformName) != "" && IsHex(Trim(f.primaryColor)) && f.loginBackgroundStyle.Some?
      && BlankOr(f.secondaryColor, IsHex(Trim(f.secondaryColor)))
      && BlankOr(f.accentColor, IsHex(Trim(f.accentColor)))
      && BlankOr(f.logoUrl, IsUrl(Trim(f.logoUrl))) && BlankOr(f.faviconUrl, IsUrl(Trim(f.faviconUrl)))
      && BlankOr(f.supportUrl, IsUrl(Trim(f.supportUrl)))
      && BlankOr(f.loginTermsUrl, IsUrl(Trim(f.loginTermsUrl)))
      && BlankOr(f.loginPrivacyUrl, IsUrl(Trim(f.loginPrivacyUrl)))
      && BlankOr(f.supportEmail, email(Trim(f.supportEmail)))
      && BlankOr(f.loginBackgroundValue,
                 BackgroundFits(f.loginBackgroundStyle.value, Trim(f.loginBackgroundValue)))
  {
    hide Trim, IsHex, IsUrl, BackgroundFits;
  }

  // ---------------------------------------------------------------------------------------------
  // Drafts
  // ---------------------------------------------------------------------------------------------

  /** The row, the publishers that have read a draft and not yet written it, and, for the record, the drafts saved
      and published so far. */
  datatype State = State(live: Columns, draft: Option<Values>, publishing: map<nat, Values>,
                         saved: seq<Values>, published: seq<Values>)

  datatype Step =
    | Save(form: Form)
    | Discard
    | ReadDraft(w: nat)
    | WriteLive(w: nat)
    | Vanish(w: nat)

  /** One statement of one session. */
  function Next(email: EmailRule, s: State, step: Step): State {
    match step
    case Save(form) =>
      var v := Parse(email, form);
      if v.None? then s else s.(draft := v, saved := s.saved + [v.value])
    case Discard => s.(draft := None)
    case ReadDraft(w) =>
      if w in s.publishing || s.draft.None? then s else s.(publishing := s.publishing[w := s.draft.value])
    case WriteLive(w) =>
      if w !in s.publishing then s
      else
        s.(live := ToRowUpdate(s.publishing[w]), draft := None, publishing := s.publishing - {w},
           published := s.published + [s.publishing[w]])
    case Vanish(w) => s.(publishing := s.publishing - {w})
  }

  function RunAll(email: EmailRule, s: State, steps: seq<Step>): State
    decreases |steps|
  {
    if steps == [] then s else Next(email, RunAll(email, s, steps[..|steps| - 1]), steps[|steps| - 1])
  }

  function Fresh(live: Columns): State { State(live, None, map[], [], []) }

  /** The row as the migrations leave it; 20260913770000_platform_branding_rename_wonderark.sql sets its name. */
  const DEFAULTS: Columns :=
    Columns("WonderArk", None, None, "#2563eb", None, None, None, None, None, None, None, None, Gradient, None, None,
            None)

  lemma DefaultsAreValid(email: EmailRule)
    ensures Valid(email, ToBranding(DEFAULTS)) && TableAllows(DEFAULTS)
  {
    assert DEFAULTS.platform_name[0] == 'W';
  }

  function LastOr(published: seq<Values>, first: Values): Values {
    if published == [] then first else published[|published| - 1]
  }

  ghost predicate Inv(email: EmailRule, initial: Columns, s: State) {
    && ToBranding(s.live) == LastOr(s.published, ToBranding(initial))
    && (forall v :: v in s.published ==> v in s.saved)
    && (forall w :: w in s.publishing ==> s.publishing[w] in s.saved)
    && (s.draft.Some? ==> s.draft.value in s.saved)
    && forall v :: v in s.saved ==> Valid(email, v)
  }

  lemma StepKeepsInv(email: EmailRule, initial: Columns, s: State, step: Step)
    requires Inv(email, initial, s)
    ensures Inv(email, initial, Next(email, s, step))
  {
    hide Valid, Parse;
    match step
    case Save(form) => ParsedIsValid(email, form);
    case WriteLive(w) =>
      if w in s.publishing {
        ColumnsReadBack(s.publishing[w], s.live);
      }
    case _ =>
  }

  /** In any run of saves, discards and publishes, publishes overlapping in any way: the live branding is the last
      published draft, or the initial row before any; every published draft was saved and is valid. */
  lemma {:induction false} LiveIsLastPublished(email: EmailRule, initial: Columns, steps: seq<Step>)
    ensures Inv(email, initial, RunAll(email, Fresh(initial), steps))
  {
    hide Inv, Next;
    if steps == [] {
      FreshHasInv(email, initial);
    } else {
      LiveIsLastPublished(email, initial, steps[..|steps| - 1]);
      StepKeepsInv(email, initial, RunAll(email, Fresh(initial), steps[..|steps| - 1]), steps[|steps| - 1]);
    }
  }

  lemma FreshHasInv(email: EmailRule, initial: Columns)
    ensures Inv(email, initial, Fresh(initial))
  {}

  /** From the row as the migrations leave it, every run keeps the live record and any draft valid, and the live columns
      within the table's checks: so the edit form always reads back as the record it starts from. */
  lemma EveryRunStaysValid(email: EmailRule, steps: seq<Step>)
    requires forall a :: email(a) ==> AddressShape(a)
    ensures var s := RunAll(email, Fresh(DEFAULTS), steps);
      && Valid(email, ToBranding(s.live)) && TableAllows(s.live)
      && (s.draft.Some? ==> Valid(email, s.draft.value))
  {
    hide Valid, RunAll, TableAllows, AddressShape;
    LiveIsLastPublished(email, DEFAULTS, steps);
    DefaultsAreValid(email);
    var s := RunAll(email, Fresh(DEFAULTS), steps);
    ColumnsReadBack(ToBranding(s.live), s.live);
    if s.published != [] {
      assert s.published[|s.published| - 1] in s.published;
      ValidFitsTable(email, ToBranding(s.live));
    }
  }

  // The public projection -------------------------------------------------------------------------------

  datatype PublicBranding = PublicBranding(
    platformName: string, logoUrl: Option<string>, loginHeadline: Option<string>, loginSupportText: Option<string>,
    loginBackgroundStyle: Style, loginBackgroundValue: Option<string>, loginTermsUrl: Option<string>,
    loginPrivacyUrl: Option<string>)

  const DEFAULT_PUBLIC: PublicBranding := PublicBranding("WonderArk", None, None, None, Gradient, None, None, None)

  /** The login page's read; without a key, or when it fails, the defaults. */
  function PublicLogin(live: Columns, readable: bool): PublicBranding {
    if !readable then DEFAULT_PUBLIC
    else
      PublicBranding(live.platform_name, live.logo_url, live.login_headline, live.login_support_text,
                     live.login_background_style, live.login_background_value, live.login_terms_url,
                     live.login_privacy_url)
  }

  /** The part of a record a visitor may see. */
  function Shown(v: Values): PublicBranding {
    PublicBranding(v.platformName, v.logoUrl, v.loginHeadline, v.loginSupportText, v.loginBackgroundStyle,
                   v.loginBackgroundValue, v.loginTermsUrl, v.loginPrivacyUrl)
  }

  /** A visitor sees the last published draft, never a pending one, in any run; and a failed read looks like a
      platform that was never branded. */
  lemma VisitorsSeeTheLastPublished(email: EmailRule, initial: Columns, steps: seq<Step>)
    ensures var s := RunAll(email, Fresh(initial), steps);
      PublicLogin(s.live, true) == Shown(LastOr(s.published, ToBranding(initial)))
    ensures PublicLogin(DEFAULTS, true) == PublicLogin(DEFAULTS, false)
    ensures forall live: Columns :: PublicLogin(live, false) == Shown(ToBranding(DEFAULTS))
  {
    hide RunAll;
    LiveIsLastPublished(email, initial, steps);
    var s := RunAll(email, Fresh(initial), steps);
    assert PublicLogin(s.live, true) == Shown(ToBranding(s.live));
  }

  // One publish ------------------------------------------------------------------------------------------

  /** publishBrandingDraft with nothing in between. */
  function Published(s: State): (State, bool) {
    if s.draft.None? then (s, false)
    else
      (s.(live := ToRowUpdate(s.draft.value), draft := None, published := s.published + [s.draft.value]), true)
  }

  /** Saving and publishing the form prefilled from the live record leaves the live record as it was, exactly when
      that record is one the schema can produce; otherwise the save is refused or the record changes. */
  lemma PrefilledPublishKeepsLiveIff(email: EmailRule, s: State)
    ensures var saved := Next(email, s, Save(ToInput(ToBranding(s.live))));
      var (s', ok) := Published(saved);
      Valid(email, ToBranding(s.live)) <==>
        saved.draft == Some(ToBranding(s.live)) && |saved.saved| > |s.saved| && ok && s'.live == s.live
  {
    hide Parse, Valid, ToInput;
    ParseToInput(email, ToBranding(s.live));
    ColumnsReadBack(ToBranding(s.live), s.live);
  }

  /** A pending draft is gone without having gone live. */
  predicate Dropped(before: State, after: State) {
    before.draft.Some? && after.draft.None? && ToBranding(after.live) != before.draft.value
  }

  /** A publisher's write drops the pending draft exactly when it is not the one the publisher read. */
  lemma WriteDropsIff(email: EmailRule, s: State, w: nat)
    requires w in s.publishing
    ensures var s' := Next(email, s, WriteLive(w));
      && ToBranding(s'.live) == s.publishing[w] && s'.draft == None
      && (Dropped(s, s') <==> s.draft.Some? && s.draft.value != s.publishing[w])
  {
    ColumnsReadBack(s.publishing[w], s.live);
  }

  /** The step sets the pending draft: an accepted save, a discard, or a write. */
  predicate Touches(email: EmailRule, s: State, step: Step) {
    match step
    case Save(form) => Parse(email, form).Some?
    case Discard => true
    case WriteLive(w) => w in s.publishing
    case _ => false
  }

  /** How many steps there are up to and with the last that touches the draft; none, if none does. */
  function LastTouch(email: EmailRule, s: State, steps: seq<Step>): (n: nat)
    ensures n <= |steps|
    decreases |steps|
  {
    if steps == [] then 0
    else
      var front := steps[..|steps| - 1];
      if Touches(email, RunAll(email, s, front), steps[|steps| - 1]) then |steps| else LastTouch(email, s, front)
  }

  /** The last touching step is a save whose draft is still pending. */
  predicate EndsInSave(email: EmailRule, s: State, steps: seq<Step>) {
    var n := LastTouch(email, s, steps);
    n > 0 && steps[n - 1].Save? && Parse(email, steps[n - 1].form).Some?
  }

  lemma {:induction false} PendingDraftIs(email: EmailRule, s: State, steps: seq<Step>)
    ensures var n, draft := LastTouch(email, s, steps), RunAll(email, s, steps).draft;
      draft == if n == 0 then s.draft
               else if EndsInSave(email, s, steps) then Parse(email, steps[n - 1].form)
               else None
  {
    hide Parse;
    if steps != [] {
      PendingDraftIs(email, s, steps[..|steps| - 1]);
    }
  }

  predicate Concerns(step: Step, w: nat) { (step.WriteLive? || step.Vanish?) && step.w == w }

  lemma {:induction false} StillPublishing(email: EmailRule, s: State, w: nat, steps: seq<Step>)
    requires w in s.publishing && forall step :: step in steps ==> !Concerns(step, w)
    ensures var s' := RunAll(email, s, steps); w in s'.publishing && s'.publishing[w] == s.publishing[w]
  {
    hide Parse;
    if steps != [] {
      StillPublishing(email, s, w, steps[..|steps| - 1]);
      assert steps[|steps| - 1] in steps;
    }
  }

  /** Whatever other sessions do between a publisher's read of draft v and its write, the write takes v live and leaves
      no draft; and a draft is dropped, neither live nor pending, if and only if the last of those steps that
      touched the draft saved a different one. */
  lemma SaveDuringPublishIsLost(email: EmailRule, s: State, w: nat, steps: seq<Step>)
    requires w !in s.publishing && s.draft.Some? && forall step :: step in steps ==> !Concerns(step, w)
    ensures var read := Next(email, s, ReadDraft(w));
      var before := RunAll(email, read, steps);
      var after := Next(email, before, WriteLive(w));
      && ToBranding(after.live) == s.draft.value && after.draft == None
      && (Dropped(before, after) <==>
            EndsInSave(email, read, steps)
            && Parse(email, steps[LastTouch(email, read, steps) - 1].form) != s.draft)
  {
    hide Parse, RunAll, LastTouch;
    var read := Next(email, s, ReadDraft(w));
    StillPublishing(email, read, w, steps);
    PendingDraftIs(email, read, steps);
    WriteDropsIff(email, RunAll(email, read, steps), w);
  }

  /** A draft discarded while it is being published goes live all the same. */
  lemma DiscardDuringPublishIsTooLate(email: EmailRule, s: State, w: nat)
    requires w !in s.publishing && s.draft.Some?
    ensures var s' := RunAll(email, s, [ReadDraft(w), Discard, WriteLive(w)]);
      ToBranding(s'.live) == s.draft.value && s'.draft == None
  {
    ThreeSteps(email, s, ReadDraft(w), Discard, WriteLive(w));
    ColumnsReadBack(s.draft.value, s.live);
  }

  lemma ThreeSteps(email: EmailRule, s: State, a: Step, b: Step, c: Step)
    ensures RunAll(email, s, [a, b, c]) == Next(email, Next(email, Next(email, s, a), b), c)
  {
    hide Next;
    assert [a, b, c][..2] == [a, b] && [a, b][..1] == [a] && [a][..0] == [];
    assert RunAll(email, s, [a]) == Next(email, s, a);
    assert RunAll(email, s, [a, b]) == Next(email, RunAll(email, s, [a]), b);
  }

  /** With no save in between, a publish drops nothing: what is pending when it writes is what it read, or was
      discarded or published meanwhile. */
  lemma {:induction false} NoSaveNothingLost(email: EmailRule, s: State, steps: seq<Step>)
    requires forall step :: step in steps ==> !step.Save?
    ensures var draft := RunAll(email, s, steps).draft; draft == s.draft || draft == None
  {
    if steps != [] {
      NoSaveNothingLost(email, s, steps[..|steps| - 1]);
      assert steps[|steps| - 1] in steps;
    }
  }

  // The stored row ---------------------------------------------------------------------------------------

  datatype Prefill = FromDraft(values: Values) | FromLive(form: Form)

  /** What the form's fields show: the page shows null as the empty text. */
  function Displayed(prefill: Prefill): Form {
    match prefill
    case FromDraft(values) => ToInput(values)
    case FromLive(form) => form
  }

  class BrandingRow {
    var live: Columns
    var draft: Option<Values>

    constructor ()
      ensures live == DEFAULTS && draft == None
    {
      live, draft := DEFAULTS, None;
    }

    method SaveBrandingDraft(email: EmailRule, form: Form) returns (ok: bool)
      modifies this`draft
      ensures ok == Parse(email, form).Some?
      ensures draft == if ok then Parse(email, form) else old(draft)
    {
      var parsed := Parse(email, form);
      if parsed.None? {
        return false;
      }
      draft := parsed;
      return true;
    }

    /** The edit form starts from the draft, else from the live record; submitting it back untouched is accepted as
        exactly that record if and only if the schema can produce it, and a save of it leaves the draft as it is. */
    method GetBrandingDraft(ghost email: EmailRule) returns (prefill: Prefill)
      ensures prefill.FromDraft? <==> draft.Some?
      ensures Displayed(prefill) == ToInput(draft.GetOr(ToBranding(live)))
      ensures var current := draft.GetOr(ToBranding(live));
        Parse(email, Displayed(prefill)) == Some(current) <==> Valid(email, current)
      ensures draft.Some? && Valid(email, draft.value) ==> Parse(email, Displayed(prefill)) == draft
    {
      hide Parse, Valid, ToInput;
      ParseToInput(email, draft.GetOr(ToBranding(live)));
      if draft.Some? {
        return FromDraft(draft.value);
      }
      return FromLive(ToInput(ToBranding(live)));
    }

    method PublishBrandingDraft() returns (branding: Option<Values>)
      modifies this
      ensures branding == old(draft)
      ensures branding.None? ==> live == old(live)
      ensures branding.Some? ==> ToBranding(live) == branding.value
      ensures draft == None
    {
      if draft.None? {
        return None;
      }
      ColumnsReadBack(draft.value, live);
      live, draft := ToRowUpdate(draft.value), None;
      return Some(ToBranding(live));
    }

    method DiscardBrandingDraft()
      modifies this`draft
      ensures draft == None
    {
      draft := None;
    }
  }
}
