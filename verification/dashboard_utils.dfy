/**
 * The pure helpers of the dashboard script: `escapeHtml`, a chain of five
 * global replacements producing the character references of section
 * 13.1.4 of the WHATWG HTML Living Standard, and the four label lookups
 * from internal codes to French labels.
 */
module DashboardUtils {
  import opened Wrappers
  import opened Domain

  /** `s.replace(/c/g, rep)`: every occurrence of `c` replaced by `rep`. */
  function ReplaceAll(s: string, c: char, rep: string): (r: string)
    ensures c !in s ==> r == s
  {
    if s == [] then []
    else (if s[0] == c then rep else [s[0]]) + ReplaceAll(s[1..], c, rep)
  }

  /** Every character of the result comes from `rep` or is a character of `s` other than `c`. */
  lemma {:induction false} ReplaceAllCharacters(s: string, c: char, rep: string)
    ensures forall x :: x in ReplaceAll(s, c, rep) ==> x in rep || (x in s && x != c)
  {
    if s != [] {
      ReplaceAllCharacters(s[1..], c, rep);
      assert forall x :: x in s[1..] ==> x in s;
    }
  }

  lemma {:induction false} ReplaceAllAppend(a: string, b: string, c: char, rep: string)
    ensures ReplaceAll(a + b, c, rep) == ReplaceAll(a, c, rep) + ReplaceAll(b, c, rep)
  {
    if a == [] {
      assert a + b == b;
    } else {
      var head := if a[0] == c then rep else [a[0]];
      assert (a + b)[1..] == a[1..] + b;
      ReplaceAllAppend(a[1..], b, c, rep);
      assert ReplaceAll(a + b, c, rep) == head + ReplaceAll(a[1..] + b, c, rep);
    }
  }

  /** The five replacements of `escapeHtml`, in their order: `&` first. */
  function EscapeChain(s: string): string {
    ReplaceAll(ReplaceAll(ReplaceAll(ReplaceAll(ReplaceAll(s, '&', "&amp;"), '<', "&lt;"), '>', "&gt;"), '"', "&quot;"), '\'', "&#39;")
  }

  /**
   * `escapeHtml`; `null` and `undefined` are `None`. Any other value is
   * taken after its `String(str)` conversion: callers passing numbers or
   * objects stringify them first.
   */
  function EscapeHtml(str: Option<string>): (r: string)
    ensures str.None? ==> r == ""
  {
    if str.None? then "" else EscapeChain(str.value)
  }

  predicate Special(c: char) {
    c == '&' || c == '<' || c == '>' || c == '"' || c == '\''
  }

  /** The character reference of one character, or the character itself. */
  function EscapeChar(c: char): (r: string)
    ensures !Special(c) ==> r == [c]
    ensures Special(c) ==> |r| >= 4 && r[0] == '&' && r[|r| - 1] == ';'
    ensures forall k :: 0 < k < |r| ==> r[k] != '&'
  {
    if c == '&' then "&amp;"
    else if c == '<' then "&lt;"
    else if c == '>' then "&gt;"
    else if c == '"' then "&quot;"
    else if c == '\'' then "&#39;"
    else [c]
  }

  /** Escaping character by character: the reference definition. */
  function Escaped(s: string): (r: string)
    ensures |r| >= |s|
  {
    if s == [] then [] else EscapeChar(s[0]) + Escaped(s[1..])
  }

  /** The five replacements in a row escape each character independently: the chain is the per-character escape. */
  lemma {:induction false} EscapeChainIsPerCharacter(s: string)
    ensures EscapeChain(s) == Escaped(s)
  {
    if s != [] {
      assert s == [s[0]] + s[1..];
      EscapeChainAppend([s[0]], s[1..]);
      EscapeChainIsPerCharacter(s[1..]);
      EscapeChainOneChar(s[0]);
    }
  }

  lemma EscapeChainAppend(a: string, b: string)
    ensures EscapeChain(a + b) == EscapeChain(a) + EscapeChain(b)
  {
    ReplaceAllAppend(a, b, '&', "&amp;");
    var a1, b1 := ReplaceAll(a, '&', "&amp;"), ReplaceAll(b, '&', "&amp;");
    ReplaceAllAppend(a1, b1, '<', "&lt;");
    var a2, b2 := ReplaceAll(a1, '<', "&lt;"), ReplaceAll(b1, '<', "&lt;");
    ReplaceAllAppend(a2, b2, '>', "&gt;");
    var a3, b3 := ReplaceAll(a2, '>', "&gt;"), ReplaceAll(b2, '>', "&gt;");
    ReplaceAllAppend(a3, b3, '"', "&quot;");
    var a4, b4 := ReplaceAll(a3, '"', "&quot;"), ReplaceAll(b3, '"', "&quot;");
    ReplaceAllAppend(a4, b4, '\'', "&#39;");
  }

  lemma ReplaceAllOneChar(x: char, c: char, rep: string)
    ensures ReplaceAll([x], c, rep) == if x == c then rep else [x]
  {
    assert [x][1..] == [];
  }

  lemma EscapeChainOneChar(x: char)
    ensures EscapeChain([x]) == EscapeChar(x)
  {
    ReplaceAllOneChar(x, '&', "&amp;");
    var r1 := ReplaceAll([x], '&', "&amp;");
    if x == '&' {
      assert r1 == "&amp;";
      assert '<' !in r1 && '>' !in r1 && '"' !in r1 && '\'' !in r1;
    } else {
      ReplaceAllOneChar(x, '<', "&lt;");
      var r2 := ReplaceAll(r1, '<', "&lt;");
      if x == '<' {
        assert '>' !in r2 && '"' !in r2 && '\'' !in r2;
      } else {
        ReplaceAllOneChar(x, '>', "&gt;");
        var r3 := ReplaceAll(r2, '>', "&gt;");
        if x == '>' {
          assert '"' !in r3 && '\'' !in r3;
        } else {
          ReplaceAllOneChar(x, '"', "&quot;");
          var r4 := ReplaceAll(r3, '"', "&quot;");
          if x == '"' {
            assert '\'' !in r4;
          } else {
            ReplaceAllOneChar(x, '\'', "&#39;");
          }
        }
      }
    }
  }

  /** The escaped text contains no raw `<`, `>`, `"` or `'`. */
  lemma {:induction false} NoRawMarkup(s: string)
    ensures forall c :: c in Escaped(s) ==> !Markup(c)
  {
    if s != [] {
      NoRawMarkup(s[1..]);
      EscapeCharNoMarkup(s[0]);
      assert Escaped(s) == EscapeChar(s[0]) + Escaped(s[1..]);
    }
  }

  /** The four characters an attribute value or element content must not hold raw. */
  predicate Markup(c: char) {
    c == '<' || c == '>' || c == '"' || c == '\''
  }

  lemma EscapeCharNoMarkup(x: char)
    ensures forall c :: c in EscapeChar(x) ==> !Markup(c)
  {
    if Special(x) {
      var r := EscapeChar(x);
      forall k | 0 <= k < |r|
        ensures !Markup(r[k])
      {
      }
    }
  }

  /** Text without any of the five special characters is left as it is. */
  lemma {:induction false} PlainTextUnchanged(s: string)
    requires forall c :: c in s ==> !Special(c)
    ensures EscapeHtml(Some(s)) == s
  {
    EscapeChainIsPerCharacter(s);
    EscapedPlain(s);
  }

  lemma {:induction false} EscapedPlain(s: string)
    requires forall c :: c in s ==> !Special(c)
    ensures Escaped(s) == s
  {
    if s != [] {
      assert s[0] in s;
      EscapedPlain(s[1..]);
      assert s == [s[0]] + s[1..];
    }
  }

  /** The five references `escapeHtml` produces. */
  predicate StartsReference(r: string) {
    "&amp;" <= r || "&lt;" <= r || "&gt;" <= r || "&quot;" <= r || "&#39;" <= r
  }

  /** Because `&` is replaced first, every `&` of the output starts one of the five references. */
  lemma {:induction false} AmpersandsStartReferences(s: string)
    ensures forall i :: 0 <= i < |Escaped(s)| && Escaped(s)[i] == '&' ==> StartsReference(Escaped(s)[i..])
  {
    if s != [] {
      var head, rest := EscapeChar(s[0]), Escaped(s[1..]);
      var r := Escaped(s);
      assert r == head + rest;
      AmpersandsStartReferences(s[1..]);
      forall i | 0 <= i < |r| && r[i] == '&'
        ensures StartsReference(r[i..])
      {
        if i < |head| {
          assert head[i] == '&';
          assert i == 0;
          assert r[i..] == head + rest;
        } else {
          assert r[i..] == rest[i - |head|..];
        }
      }
    }
  }

  /** Decoding the five references, scanning left to right. */
  function Unescape(r: string): string {
    if r == [] then []
    else if "&amp;" <= r then "&" + Unescape(r[5..])
    else if "&lt;" <= r then "<" + Unescape(r[4..])
    else if "&gt;" <= r then ">" + Unescape(r[4..])
    else if "&quot;" <= r then "\"" + Unescape(r[6..])
    else if "&#39;" <= r then "'" + Unescape(r[5..])
    else [r[0]] + Unescape(r[1..])
  }

  /** Decoding the escaped text gives back the input. */
  lemma {:induction false} UnescapeEscaped(s: string)
    ensures Unescape(EscapeHtml(Some(s))) == s
  {
    EscapeChainIsPerCharacter(s);
    UnescapeEscapedChars(s);
  }

  lemma {:induction false} UnescapeEscapedChars(s: string)
    ensures Unescape(Escaped(s)) == s
  {
    if s != [] {
      UnescapeEscapedChars(s[1..]);
      UnescapeOneChar(s[0], Escaped(s[1..]));
      assert s == [s[0]] + s[1..];
    }
  }

  /** Decoding reads back one escaped character and goes on with the rest. */
  lemma UnescapeOneChar(x: char, rest: string)
    ensures Unescape(EscapeChar(x) + rest) == [x] + Unescape(rest)
  {
    var r := EscapeChar(x) + rest;
    assert r[|EscapeChar(x)|..] == rest;
    if !Special(x) {
      assert r[0] == x;
      assert !("&amp;" <= r) && !("&lt;" <= r) && !("&gt;" <= r) && !("&quot;" <= r) && !("&#39;" <= r) by {
        assert "&amp;"[0] == '&';
        assert "&lt;"[0] == '&';
        assert "&gt;"[0] == '&';
        assert "&quot;"[0] == '&';
        assert "&#39;"[0] == '&';
      }
    } else if x == '&' {
      assert "&amp;" <= r;
    } else if x == '<' {
      assert !("&amp;" <= r) by { assert r[1] == 'l'; }
      assert "&lt;" <= r;
    } else if x == '>' {
      assert !("&amp;" <= r) by { assert r[1] == 'g'; }
      assert !("&lt;" <= r) by { assert r[1] == 'g'; }
      assert "&gt;" <= r;
    } else if x == '"' {
      assert !("&amp;" <= r) by { assert r[1] == 'q'; }
      assert !("&lt;" <= r) by { assert r[1] == 'q'; }
      assert !("&gt;" <= r) by { assert r[1] == 'q'; }
      assert "&quot;" <= r;
    } else {
      assert !("&amp;" <= r) by { assert r[1] == '#'; }
      assert !("&lt;" <= r) by { assert r[1] == '#'; }
      assert !("&gt;" <= r) by { assert r[1] == '#'; }
      assert !("&quot;" <= r) by { assert r[1] == '#'; }
      assert "&#39;" <= r;
    }
  }

  /** `labels[code] || code` over a lookup table whose labels are all non-empty. */
  function Lookup(table: seq<(string, string)>, code: string): (r: string)
    requires forall k :: 0 <= k < |table| ==> table[k].1 != ""
    ensures (exists k :: 0 <= k < |table| && table[k].0 == code) ==> exists k :: 0 <= k < |table| && table[k] == (code, r)
    ensures (forall k :: 0 <= k < |table| ==> table[k].0 != code) ==> r == code
  {
    if table == [] then code
    else if table[0].0 == code then table[0].1
    else
      var r := Lookup(table[1..], code);
      assert forall k :: 1 <= k < |table| ==> table[1..][k - 1] == table[k];
      r
  }

  const StatusLabels: seq<(string, string)> :=
    [("active", "Actif"), ("inactive", "Inactif"), ("on_leave", "En congé"), ("pending", "En attente")]

  const LeaveTypeLabels: seq<(string, string)> :=
    [("paid", "Congé Payé"), ("sick", "Maladie"), ("unpaid", "Sans Solde"), ("parental", "Parental"), ("other", "Autre")]

  const LeaveStatusLabels: seq<(string, string)> :=
    [("pending", "En attente"), ("manager_approved", "Validé Manager"), ("approved", "Approuvé"), ("rejected", "Rejeté")]

  const AttendanceStatusLabels: seq<(string, string)> :=
    [("present", "Présent"), ("absent", "Absent"), ("late", "En Retard"), ("half-day", "Demi-journée")]

  /** `getStatusLabel`. */
  function GetStatusLabel(status: string): (r: string)
    ensures (forall k :: 0 <= k < |StatusLabels| ==> StatusLabels[k].0 != status) ==> r == status
  {
    Lookup(StatusLabels, status)
  }

  /** `getLeaveTypeLabel`. */
  function GetLeaveTypeLabel(code: string): (r: string)
    ensures (forall k :: 0 <= k < |LeaveTypeLabels| ==> LeaveTypeLabels[k].0 != code) ==> r == code
  {
    Lookup(LeaveTypeLabels, code)
  }

  /** `getLeaveStatusLabel`. */
  function GetLeaveStatusLabel(status: string): (r: string)
    ensures (forall k :: 0 <= k < |LeaveStatusLabels| ==> LeaveStatusLabels[k].0 != status) ==> r == status
  {
    Lookup(LeaveStatusLabels, status)
  }

  /** `getAttendanceStatusLabel`. */
  function GetAttendanceStatusLabel(status: string): (r: string)
    ensures (forall k :: 0 <= k < |AttendanceStatusLabels| ==> AttendanceStatusLabels[k].0 != status) ==> r == status
  {
    Lookup(AttendanceStatusLabels, status)
  }

  /** The codes the backend stores for the enumerations of the domain. */
  function LeaveTypeCode(t: LeaveType): string {
    match t
    case Paid => "paid"
    case Sick => "sick"
    case Unpaid => "unpaid"
    case Parental => "parental"
    case OtherLeave => "other"
  }

  function LeaveStatusCode(s: LeaveStatus): string {
    match s
    case Pending => "pending"
    case ManagerApproved => "manager_approved"
    case Approved => "approved"
    case Rejected => "rejected"
  }

  function AttendanceStatusCode(s: AttendanceStatus): string {
    match s
    case Present => "present"
    case Absent => "absent"
    case Late => "late"
    case HalfDay => "half-day"
  }

  /** Every stored leave type, leave status and attendance status gets a French label, never the raw code. */
  lemma EveryCodeHasALabel(t: LeaveType, s: LeaveStatus, a: AttendanceStatus)
    ensures GetLeaveTypeLabel(LeaveTypeCode(t)) != LeaveTypeCode(t)
    ensures GetLeaveStatusLabel(LeaveStatusCode(s)) != LeaveStatusCode(s)
    ensures GetAttendanceStatusLabel(AttendanceStatusCode(a)) != AttendanceStatusCode(a)
  {
    LeaveTypeHasALabel(t);
    LeaveStatusHasALabel(s);
    AttendanceStatusHasALabel(a);
  }

  lemma LeaveTypeHasALabel(t: LeaveType)
    ensures GetLeaveTypeLabel(LeaveTypeCode(t)) != LeaveTypeCode(t)
  {
    assert GetLeaveTypeLabel("paid") == "Congé Payé";
  }

  lemma LeaveStatusHasALabel(s: LeaveStatus)
    ensures GetLeaveStatusLabel(LeaveStatusCode(s)) != LeaveStatusCode(s)
  {
    assert GetLeaveStatusLabel("pending") == "En attente";
  }

  lemma AttendanceStatusHasALabel(a: AttendanceStatus)
    ensures GetAttendanceStatusLabel(AttendanceStatusCode(a)) != AttendanceStatusCode(a)
  {
    assert GetAttendanceStatusLabel("present") == "Présent";
  }

  /** The label of a leave validated by a manager and awaiting the entreprise. */
  lemma ManagerApprovedLabel()
    ensures GetLeaveStatusLabel("manager_approved") == "Validé Manager"
  {
  }

  /** The label of a rejected leave. */
  lemma RejectedLabel()
    ensures GetLeaveStatusLabel("rejected") == "Rejeté"
  {
  }

  /** A code missing from the table is shown as it is. */
  lemma UnknownStatusShownRaw()
    ensures GetStatusLabel("archived") == "archived"
  {
  }
}
