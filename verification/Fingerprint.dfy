// crates/dandori-store/src/repositories/issue.rs:465-484, the request fingerprints.
module Fingerprint {
  import opened Base
  import opened Issues

  // ----- identifiers as text: 32 lower-case hexadecimal digits in five groups

  const HEX: string := "0123456789abcdef"

  function Pow16(n: nat): nat {
    if n == 0 then 1 else 16 * Pow16(n - 1)
  }

  // Every identifier of the source is a 128-bit number.
  ghost predicate IsUuid(u: Uuid) { u < Pow16(32) }

  predicate IsHexDigit(c: char) { '0' <= c <= '9' || 'a' <= c <= 'f' }

  ghost predicate HexDigits(text: string) { forall i :: 0 <= i < |text| ==> IsHexDigit(text[i]) }

  function HexText(u: nat, n: nat): (text: string)
    ensures |text| == n
    ensures HexDigits(text)
  {
    if n == 0 then "" else HexText(u / 16, n - 1) + [HEX[u % 16]]
  }

  function UuidText(u: Uuid): (text: string)
    ensures |text| == 36
  {
    var h := HexText(u, 32);
    h[..8] + "-" + h[8..12] + "-" + h[12..16] + "-" + h[16..20] + "-" + h[20..]
  }

  ghost predicate NoBar(s: string) { forall i :: 0 <= i < |s| ==> s[i] != '|' }

  lemma UuidTextNoBar(u: Uuid)
    ensures NoBar(UuidText(u))
  {
    assert NoBar(HexText(u, 32));
  }

  // ----- what such a text spells, read digit by digit, the highest first

  function DigitValue(c: char): (d: nat)
    requires IsHexDigit(c)
    ensures d < 16
  {
    if c <= '9' then c as int - '0' as int else c as int - 'a' as int + 10
  }

  ghost function HexValue(text: string): nat
    requires HexDigits(text)
  {
    if text == "" then 0 else 16 * HexValue(text[..|text| - 1]) + DigitValue(text[|text| - 1])
  }

  lemma HexDigitReads(d: nat)
    requires d < 16
    ensures DigitValue(HEX[d]) == d
  {
  }

  lemma {:induction false} HexTextReads(u: nat, n: nat)
    requires u < Pow16(n)
    ensures HexValue(HexText(u, n)) == u
    decreases n
  {
    if n > 0 {
      var text := HexText(u, n);
      HexTextReads(u / 16, n - 1);
      HexDigitReads(u % 16);
      assert text[..n - 1] == HexText(u / 16, n - 1) && text[n - 1] == HEX[u % 16];
    }
  }

  lemma DigitInjective(c: char, d: char)
    requires IsHexDigit(c) && IsHexDigit(d) && DigitValue(c) == DigitValue(d)
    ensures c == d
  {
  }

  lemma LastDigit(v: nat, d: nat, w: nat, e: nat)
    requires d < 16 && e < 16 && 16 * v + d == 16 * w + e
    ensures v == w && d == e
  {
  }

  lemma {:induction false} HexValueInjective(a: string, b: string)
    requires |a| == |b| && HexDigits(a) && HexDigits(b) && HexValue(a) == HexValue(b)
    ensures a == b
    decreases |a|
  {
    if a != "" {
      var n := |a| - 1;
      LastDigit(HexValue(a[..n]), DigitValue(a[n]), HexValue(b[..n]), DigitValue(b[n]));
      HexValueInjective(a[..n], b[..n]);
      DigitInjective(a[n], b[n]);
      assert a == a[..n] + [a[n]] && b == b[..n] + [b[n]];
    }
  }

  // The hyphenated form: five groups of 8, 4, 4, 4 and 12 lower-case hexadecimal digits that
  // spell the identifier.
  ghost predicate Spells(text: string, u: Uuid) {
    && |text| == 36
    && text[8] == text[13] == text[18] == text[23] == '-'
    && HexDigits(Ungrouped(text)) && HexValue(Ungrouped(text)) == u
  }

  ghost function Ungrouped(text: string): string
    requires |text| == 36
  {
    text[..8] + text[9..13] + text[14..18] + text[19..23] + text[24..]
  }

  lemma GroupsReadBack(a: string, b: string, c: string, d: string, e: string)
    requires |a| == 8 && |b| == |c| == |d| == 4
    ensures var h := a + b + c + d + e; h[..8] == a && h[8..12] == b && h[12..16] == c && h[16..20] == d && h[20..] == e
  {
  }

  lemma UngroupedReads(u: Uuid)
    ensures Ungrouped(UuidText(u)) == HexText(u, 32)
    ensures var t := UuidText(u); t[8] == t[13] == t[18] == t[23] == '-'
  {
    var h, t := HexText(u, 32), UuidText(u);
    assert t[..8] == h[..8] && t[9..13] == h[8..12] && t[14..18] == h[12..16] && t[19..23] == h[16..20]
        && t[24..] == h[20..];
    assert h == h[..8] + h[8..12] + h[12..16] + h[16..20] + h[20..];
  }

  lemma UngroupedWrites(text: string, u: Uuid)
    requires |text| == 36 && text[8] == text[13] == text[18] == text[23] == '-' && Ungrouped(text) == HexText(u, 32)
    ensures text == UuidText(u)
  {
    GroupsReadBack(text[..8], text[9..13], text[14..18], text[19..23], text[24..]);
    assert text == text[..8] + "-" + text[9..13] + "-" + text[14..18] + "-" + text[19..23] + "-" + text[24..];
  }

  // The text written is the only one that spells the identifier.
  lemma SpellsExactly(text: string, u: Uuid)
    requires IsUuid(u)
    ensures Spells(text, u) <==> text == UuidText(u)
  {
    HexTextReads(u, 32);
    UngroupedReads(u);
    if Spells(text, u) {
      HexValueInjective(Ungrouped(text), HexText(u, 32));
      UngroupedWrites(text, u);
    }
  }

  lemma UuidTextInjective(u: Uuid, v: Uuid)
    requires IsUuid(u) && IsUuid(v) && UuidText(u) == UuidText(v)
    ensures u == v
  {
    SpellsExactly(UuidText(u), u);
    SpellsExactly(UuidText(u), v);
  }

  // ----- the two fingerprint formats

  const DESCRIPTION: string := "|description="
  const PRIORITY: string := "|priority="

  function MilestoneText(m: Option<Uuid>): string {
    if m.None? then "null" else UuidText(m.value)
  }

  function DescriptionText(cmd: Command): string {
    if cmd.description.None? then "" else cmd.description.value
  }

  function LegacyV1Fingerprint(cmd: Command): string {
    "project_id=" + UuidText(cmd.project)
    + "|milestone_id=" + MilestoneText(cmd.milestone)
    + "|title=" + cmd.title
    + DESCRIPTION + DescriptionText(cmd)
    + PRIORITY + PriorityAsStr(cmd.priority)
  }

  predicate StartsWith(s: string, prefix: string) { prefix <= s }

  function MatchesRequestFingerprint(existing: string, cmd: Command): (r: bool)
    ensures StartsWith(existing, "v2:") ==> (r <==> existing == cmd.fingerprint)
    ensures r <==> existing == cmd.fingerprint || existing == LegacyV1Fingerprint(cmd)
  {
    if existing == cmd.fingerprint then true
    else
      assert existing == LegacyV1Fingerprint(cmd) ==> existing[0] == 'p';
      !StartsWith(existing, "v2:") && existing == LegacyV1Fingerprint(cmd)
  }

  // ----- the legacy text, written out

  // The text is that of the command, its project spelled p and its milestone m.
  ghost predicate LegacyTextWith(text: string, cmd: Command, p: string, m: string) {
    && Spells(p, cmd.project)
    && (match cmd.milestone case None => m == "null" case Some(id) => Spells(m, id))
    && text == "project_id=" + p + "|milestone_id=" + m + "|title=" + cmd.title
         + "|description=" + (match cmd.description case None => "" case Some(d) => d)
         + "|priority=" + (match cmd.priority
                           case Low => "low" case Medium => "medium" case High => "high" case Urgent => "urgent")
  }

  lemma LegacyTextExactly(text: string, cmd: Command)
    requires IdsOk(cmd)
    ensures text == LegacyV1Fingerprint(cmd) <==> exists p, m :: LegacyTextWith(text, cmd, p, m)
  {
    var project, milestone := UuidText(cmd.project), MilestoneText(cmd.milestone);
    SpellsExactly(project, cmd.project);
    if cmd.milestone.Some? {
      SpellsExactly(milestone, cmd.milestone.value);
    }
    if text == LegacyV1Fingerprint(cmd) {
      assert LegacyTextWith(text, cmd, project, milestone);
    }
    if p, m :| LegacyTextWith(text, cmd, p, m) {
      SpellsExactly(p, cmd.project);
      if cmd.milestone.Some? {
        SpellsExactly(m, cmd.milestone.value);
      }
    }
  }

  // A stored fingerprint matches a request exactly when it is the request's own, or spells the
  // request in the legacy format.
  lemma MatchesExactly(existing: string, cmd: Command)
    requires IdsOk(cmd)
    ensures MatchesRequestFingerprint(existing, cmd) <==>
      existing == cmd.fingerprint || exists p, m :: LegacyTextWith(existing, cmd, p, m)
  {
    LegacyTextExactly(existing, cmd);
  }

  // What a legacy fingerprint is meant to stand for; an absent description counts as empty.
  ghost predicate SameContent(a: Command, b: Command) {
    && a.project == b.project
    && a.milestone == b.milestone
    && a.title == b.title
    && DescriptionText(a) == DescriptionText(b)
    && a.priority == b.priority
  }

  ghost predicate IdsOk(cmd: Command) {
    IsUuid(cmd.project) && (cmd.milestone.Some? ==> IsUuid(cmd.milestone.value))
  }

  predicate OccursAt(s: string, i: nat, sep: string) {
    i + |sep| <= |s| && s[i..i + |sep|] == sep
  }

  predicate Contains(s: string, sep: string) {
    exists i: nat :: i <= |s| && OccursAt(s, i, sep)
  }

  // ----- cutting texts at separators

  lemma FirstBar(a: string, x: string, b: string, y: string)
    requires NoBar(a) && NoBar(b) && a + "|" + x == b + "|" + y
    ensures a == b && x == y
  {
    var s, t := a + "|" + x, b + "|" + y;
    assert s[|a|] == '|' && t[|b|] == '|';
    assert forall i :: 0 <= i < |a| ==> s[i] == a[i] != '|';
    assert forall i :: 0 <= i < |b| ==> t[i] == b[i] != '|';
    assert |a| == |b|;
    assert a == s[..|a|] && b == t[..|b|] && x == s[|a| + 1..] && y == t[|b| + 1..];
  }

  lemma LastBar(x: string, p: string, y: string, q: string)
    requires NoBar(p) && NoBar(q) && x + "|" + p == y + "|" + q
    ensures x == y && p == q
  {
    var s, t := x + "|" + p, y + "|" + q;
    assert s[|x|] == '|' && t[|y|] == '|';
    assert forall i :: |x| < i < |s| ==> s[i] == p[i - |x| - 1] != '|';
    assert forall i :: |y| < i < |t| ==> t[i] == q[i - |y| - 1] != '|';
    assert |x| == |y|;
    assert x == s[..|x|] && y == t[..|y|] && p == s[|x| + 1..] && q == t[|y| + 1..];
  }

  lemma OccurrenceChars(x: string, p: nat)
    requires OccursAt(x, p, DESCRIPTION)
    ensures x[p] == '|' && x[p + 1] == 'd'
    ensures forall i :: p < i < p + |DESCRIPTION| ==> x[i] != '|'
  {
    var s := x[p..p + |DESCRIPTION|];
    assert s == DESCRIPTION;
    assert x[p] == s[0] && x[p + 1] == s[1];
    assert forall i :: p < i < p + |DESCRIPTION| ==> x[i] == s[i - p];
  }

  lemma Layout(title: string, desc: string, priority: string)
    requires NoBar(priority)
    ensures var x, t, d, r := title + DESCRIPTION + desc + PRIORITY + priority, |title|,
        |title| + |DESCRIPTION|, |title| + |DESCRIPTION| + |desc|;
      && x[0..0 + t] == title && x[d..d + |desc|] == desc
      && x[t] == '|' && (forall i :: t < i < d ==> x[i] != '|')
      && r + 1 < |x| && x[r] == '|' && x[r + 1] == 'p' && (forall i :: r < i < |x| ==> x[i] != '|')
  {
    var x, t, d, r := title + DESCRIPTION + desc + PRIORITY + priority, |title|,
        |title| + |DESCRIPTION|, |title| + |DESCRIPTION| + |desc|;
    assert forall i :: t < i < d ==> x[i] == DESCRIPTION[i - t];
    assert forall i :: r < i < |x| ==> x[i] == (PRIORITY + priority)[i - r];
  }

  // "|description=" has one bar, its first character, so its occurrences cannot overlap a
  // text boundary that starts with a bar.
  lemma OccurrencePlaces(title: string, desc: string, priority: string, p: nat)
    requires NoBar(priority)
    requires OccursAt(title + DESCRIPTION + desc + PRIORITY + priority, p, DESCRIPTION)
    ensures p == |title| || OccursAt(title, p, DESCRIPTION) || Contains(desc, DESCRIPTION)
  {
    var x, t, d, n := title + DESCRIPTION + desc + PRIORITY + priority, |title|, |title| + |DESCRIPTION|, |DESCRIPTION|;
    Layout(title, desc, priority);
    OccurrenceChars(x, p);
    if p < t {
      assert p + n <= t;
      assert title[p..p + n] == x[p..p + n];
    } else if p != t {
      assert d <= p && p + n <= d + |desc|;
      assert desc[p - d..p - d + n] == x[p..p + n];
      assert OccursAt(desc, p - d, DESCRIPTION);
    }
  }

  function TitleOnwards(cmd: Command): string {
    cmd.title + DESCRIPTION + DescriptionText(cmd) + PRIORITY + PriorityAsStr(cmd.priority)
  }

  lemma PriorityText(p: Priority, q: Priority)
    ensures NoBar(PriorityAsStr(p))
    ensures PriorityAsStr(p) == PriorityAsStr(q) ==> p == q
  {
  }

  function ProjectPart(cmd: Command): string { "project_id=" + UuidText(cmd.project) }

  function MilestonePart(cmd: Command): string { "milestone_id=" + MilestoneText(cmd.milestone) }

  lemma Parts(cmd: Command)
    ensures LegacyV1Fingerprint(cmd)
         == ProjectPart(cmd) + "|" + (MilestonePart(cmd) + "|" + ("title=" + TitleOnwards(cmd)))
  {
    var p, m := UuidText(cmd.project), MilestoneText(cmd.milestone);
    assert "|milestone_id=" == "|" + "milestone_id=" && "|title=" == "|" + "title=";
    var x, y, z := "project_id=", "milestone_id=", "title=";
    Regroup(x + p + ("|" + y) + m + ("|" + z), cmd.title, DESCRIPTION, DescriptionText(cmd),
            PRIORITY + PriorityAsStr(cmd.priority));
    Regroup4(x + p + ("|" + y) + m + ("|" + z) + cmd.title + DESCRIPTION + DescriptionText(cmd),
             PRIORITY, PriorityAsStr(cmd.priority));
    Regroup4(cmd.title + DESCRIPTION + DescriptionText(cmd), PRIORITY, PriorityAsStr(cmd.priority));
    RegroupHead(x, p, y, m, z, TitleOnwards(cmd));
  }

  lemma Regroup(h: string, a: string, b: string, c: string, d: string)
    ensures h + a + b + c + d == h + (a + b + c + d)
  {
  }

  lemma Regroup4(a: string, b: string, c: string)
    ensures a + b + c == a + (b + c)
  {
  }

  lemma RegroupHead(x: string, p: string, y: string, m: string, z: string, t: string)
    ensures x + p + ("|" + y) + m + ("|" + z) + t == (x + p) + "|" + ((y + m) + "|" + (z + t))
  {
  }

  lemma PartsReadBack(cmd: Command)
    ensures NoBar(ProjectPart(cmd)) && NoBar(MilestonePart(cmd))
    ensures ProjectPart(cmd)[11..] == UuidText(cmd.project)
    ensures MilestonePart(cmd)[13..] == MilestoneText(cmd.milestone)
  {
    UuidTextNoBar(cmd.project);
    if cmd.milestone.Some? {
      UuidTextNoBar(cmd.milestone.value);
    }
  }

  // The project and the milestone can always be read back.
  lemma IdsReadBack(a: Command, b: Command)
    requires IdsOk(a) && IdsOk(b) && LegacyV1Fingerprint(a) == LegacyV1Fingerprint(b)
    ensures a.project == b.project && a.milestone == b.milestone && TitleOnwards(a) == TitleOnwards(b)
  {
    Parts(a);
    Parts(b);
    PartsReadBack(a);
    PartsReadBack(b);
    var ta, tb := "title=" + TitleOnwards(a), "title=" + TitleOnwards(b);
    FirstBar(ProjectPart(a), MilestonePart(a) + "|" + ta, ProjectPart(b), MilestonePart(b) + "|" + tb);
    FirstBar(MilestonePart(a), ta, MilestonePart(b), tb);
    UuidTextInjective(a.project, b.project);
    if a.milestone.Some? && b.milestone.Some? {
      UuidTextInjective(a.milestone.value, b.milestone.value);
    }
    assert ta[6..] == TitleOnwards(a) && tb[6..] == TitleOnwards(b);
  }

  lemma Tail(cmd: Command)
    ensures TitleOnwards(cmd)[..|cmd.title|] == cmd.title
    ensures TitleOnwards(cmd)[|cmd.title| + |DESCRIPTION|..]
         == DescriptionText(cmd) + "|" + ("priority=" + PriorityAsStr(cmd.priority))
  {
    assert PRIORITY == "|" + "priority=";
  }

  lemma TailReadBack(a: Command, b: Command)
    requires TitleOnwards(a) == TitleOnwards(b) && |a.title| == |b.title|
    ensures a.title == b.title && DescriptionText(a) == DescriptionText(b) && a.priority == b.priority
  {
    Tail(a);
    Tail(b);
    var p, q := "priority=" + PriorityAsStr(a.priority), "priority=" + PriorityAsStr(b.priority);
    PriorityText(a.priority, b.priority);
    PriorityText(b.priority, a.priority);
    LastBar(DescriptionText(a), p, DescriptionText(b), q);
    assert p[9..] == PriorityAsStr(a.priority) && q[9..] == PriorityAsStr(b.priority);
  }

  // Equal legacy fingerprints mean equal requests when no title contains "|description=",
  // in particular when no title contains a bar; the descriptions may be any text.
  lemma LegacyFingerprintDecodes(a: Command, b: Command)
    requires IdsOk(a) && IdsOk(b) && LegacyV1Fingerprint(a) == LegacyV1Fingerprint(b)
    requires !Contains(a.title, DESCRIPTION) && !Contains(b.title, DESCRIPTION)
    ensures SameContent(a, b)
  {
    IdsReadBack(a, b);
    if |a.title| < |b.title| {
      ShorterTitle(a, b);
    } else if |b.title| < |a.title| {
      ShorterTitle(b, a);
    }
    TailReadBack(a, b);
  }

  lemma ShorterTitle(a: Command, b: Command)
    requires TitleOnwards(a) == TitleOnwards(b) && |a.title| < |b.title|
    ensures Contains(b.title, DESCRIPTION)
  {
    var t, n := |a.title|, |DESCRIPTION|;
    PriorityText(a.priority, a.priority);
    PriorityText(b.priority, b.priority);
    Layout(a.title, DescriptionText(a), PriorityAsStr(a.priority));
    Layout(b.title, DescriptionText(b), PriorityAsStr(b.priority));
    assert TitleOnwards(a)[t..t + n] == DESCRIPTION;
    assert t + n <= |b.title|;
    assert TitleOnwards(b)[t..t + n] == b.title[t..t + n];
    assert OccursAt(b.title, t, DESCRIPTION);
  }

  lemma NoBarNoSeparator(s: string)
    requires NoBar(s)
    ensures !Contains(s, DESCRIPTION)
  {
    if i: nat :| i <= |s| && OccursAt(s, i, DESCRIPTION) {
      assert s[i..i + |DESCRIPTION|][0] == '|';
      assert s[i] == '|';
    }
  }

  // ----- which requests a stored legacy fingerprint tells apart

  // CHECK (char_length(request_fingerprint) BETWEEN 1 AND 128) on the record table.
  const MAX_STORED_FINGERPRINT: nat := 128

  predicate StorableFingerprint(text: string) { 1 <= |text| <= MAX_STORED_FINGERPRINT && TextColumn(text) }

  // A request that passes validation and whose texts the columns take.
  ghost predicate ValidRequest(cmd: Command) {
    IdsOk(cmd) && Validates(cmd) && TextColumn(cmd.title) && TextColumn(DescriptionText(cmd))
  }

  // The legacy fingerprint of the command stands for no other request.
  ghost predicate Unambiguous(cmd: Command) {
    forall other: Command ::
      ValidRequest(other) && LegacyV1Fingerprint(other) == LegacyV1Fingerprint(cmd) ==> SameContent(other, cmd)
  }

  // The title can be cut at a separator into a title that is not blank, and the rest.
  ghost predicate TitleSplitsAt(title: string, i: nat) {
    OccursAt(title, i, DESCRIPTION) && !Blank(title[..i])
  }

  ghost predicate TitleSplits(title: string) {
    exists i: nat :: TitleSplitsAt(title, i)
  }

  lemma LegacyLayout(cmd: Command)
    ensures var text, m := LegacyV1Fingerprint(cmd), |MilestoneText(cmd.milestone)|;
      && |text| == 91 + m + |cmd.title| + |DescriptionText(cmd)| + |PriorityAsStr(cmd.priority)|
      && text[68 + m..68 + m + |cmd.title|] == cmd.title
      && text[81 + m + |cmd.title|..81 + m + |cmd.title| + |DescriptionText(cmd)|] == DescriptionText(cmd)
  {
    var head := "project_id=" + UuidText(cmd.project) + "|milestone_id=" + MilestoneText(cmd.milestone) + "|title=";
    assert |head| == 68 + |MilestoneText(cmd.milestone)|;
    var upTo := head + cmd.title + DESCRIPTION;
    assert LegacyV1Fingerprint(cmd) == upTo + DescriptionText(cmd) + PRIORITY + PriorityAsStr(cmd.priority);
    assert |upTo| == 81 + |MilestoneText(cmd.milestone)| + |cmd.title|;
  }

  // A legacy fingerprint fits its column exactly without a milestone and with title, description
  // and priority at most 33 characters together, so that the texts have at most thirty.
  lemma StorableIsShort(cmd: Command)
    ensures StorableFingerprint(LegacyV1Fingerprint(cmd)) <==>
      && cmd.milestone.None?
      && |cmd.title| + |DescriptionText(cmd)| + |PriorityAsStr(cmd.priority)| <= 33
      && TextColumn(cmd.title) && TextColumn(DescriptionText(cmd))
    ensures 3 <= |PriorityAsStr(cmd.priority)|
  {
    LegacyLayout(cmd);
    assert 3 <= |PriorityAsStr(cmd.priority)| && 4 <= |MilestoneText(cmd.milestone)|;
    var text, m := LegacyV1Fingerprint(cmd), |MilestoneText(cmd.milestone)|;
    if TextColumn(text) {
      assert forall c :: c in cmd.title ==> c in text[68 + m..68 + m + |cmd.title|];
      assert forall c :: c in DescriptionText(cmd) ==> c in text;
    }
    if TextColumn(cmd.title) && TextColumn(DescriptionText(cmd)) {
      LegacyTextColumn(cmd);
    }
  }

  lemma LegacyTextColumn(cmd: Command)
    requires TextColumn(cmd.title) && TextColumn(DescriptionText(cmd))
    ensures TextColumn(LegacyV1Fingerprint(cmd))
  {
    UuidTextColumn(cmd.project);
    if cmd.milestone.Some? {
      UuidTextColumn(cmd.milestone.value);
    }
  }

  lemma UuidTextColumn(u: Uuid)
    ensures TextColumn(UuidText(u))
  {
    assert forall i :: 0 <= i < 32 ==> HexText(u, 32)[i] != '\0';
  }

  lemma SameTextIsValid(cmd: Command, other: Command)
    requires ValidRequest(cmd) && StorableFingerprint(LegacyV1Fingerprint(cmd))
    requires LegacyV1Fingerprint(other) == LegacyV1Fingerprint(cmd)
    requires IdsOk(other) && !Blank(other.title) && other.key == cmd.key && other.fingerprint == cmd.fingerprint
    ensures ValidRequest(other)
  {
    StorableIsShort(other);
  }

  // Exactly the requests whose description avoids "|description=", and whose title has none
  // behind a head that is not blank, are told apart from every other request.
  lemma UnambiguousExactly(cmd: Command)
    requires ValidRequest(cmd) && StorableFingerprint(LegacyV1Fingerprint(cmd))
    ensures Unambiguous(cmd) <==> !TitleSplits(cmd.title) && !Contains(DescriptionText(cmd), DESCRIPTION)
  {
    if TitleSplits(cmd.title) {
      var other := TitleCutEarlier(cmd);
    } else if Contains(DescriptionText(cmd), DESCRIPTION) {
      var other := TitleCutLater(cmd);
    } else {
      forall other: Command | ValidRequest(other) && LegacyV1Fingerprint(other) == LegacyV1Fingerprint(cmd)
        ensures SameContent(other, cmd)
      {
        NoSplitDecodes(cmd, other);
      }
    }
  }

  lemma NoSplitDecodes(cmd: Command, other: Command)
    requires IdsOk(cmd) && ValidRequest(other) && LegacyV1Fingerprint(other) == LegacyV1Fingerprint(cmd)
    requires !TitleSplits(cmd.title) && !Contains(DescriptionText(cmd), DESCRIPTION)
    ensures SameContent(other, cmd)
  {
    IdsReadBack(other, cmd);
    TitleEndsSomewhere(cmd, other);
    assert !TitleSplitsAt(cmd.title, |other.title|);
    TailReadBack(other, cmd);
  }

  // Another title of the same text ends where the first does, or at a separator in the first
  // title or in its description.
  lemma TitleEndsSomewhere(cmd: Command, other: Command)
    requires TitleOnwards(other) == TitleOnwards(cmd)
    ensures var t := |other.title|;
      || t == |cmd.title|
      || (OccursAt(cmd.title, t, DESCRIPTION) && cmd.title[..t] == other.title)
      || Contains(DescriptionText(cmd), DESCRIPTION)
  {
    var x, t := TitleOnwards(other), |other.title|;
    Tail(other);
    Tail(cmd);
    assert x[t..t + |DESCRIPTION|] == DESCRIPTION;
    PriorityText(cmd.priority, cmd.priority);
    OccurrencePlaces(cmd.title, DescriptionText(cmd), PriorityAsStr(cmd.priority), t);
    if t <= |cmd.title| {
      assert cmd.title[..t] == x[..t] == other.title;
    }
  }

  lemma CutAt(s: string, i: nat) returns (head: string, tail: string)
    requires OccursAt(s, i, DESCRIPTION)
    ensures s == head + DESCRIPTION + tail && head == s[..i] && |head| < |s|
  {
    head, tail := s[..i], s[i + |DESCRIPTION|..];
  }

  lemma Recut(head: string, tail: string, desc: string)
    ensures head + DESCRIPTION + (tail + DESCRIPTION + desc) == (head + DESCRIPTION + tail) + DESCRIPTION + desc
  {
  }

  // Otherwise another valid request has the same fingerprint.
  lemma TitleCutEarlier(cmd: Command) returns (other: Command)
    requires ValidRequest(cmd) && StorableFingerprint(LegacyV1Fingerprint(cmd))
    requires TitleSplits(cmd.title)
    ensures ValidRequest(other) && LegacyV1Fingerprint(other) == LegacyV1Fingerprint(cmd) && !SameContent(other, cmd)
  {
    var i: nat :| TitleSplitsAt(cmd.title, i);
    var head, tail := CutAt(cmd.title, i);
    other := cmd.(title := head, description := Some(tail + DESCRIPTION + DescriptionText(cmd)));
    Recut(head, tail, DescriptionText(cmd));
    SameTail(other, cmd);
    SameTextIsValid(cmd, other);
  }

  lemma TitleCutLater(cmd: Command) returns (other: Command)
    requires ValidRequest(cmd) && StorableFingerprint(LegacyV1Fingerprint(cmd))
    requires Contains(DescriptionText(cmd), DESCRIPTION)
    ensures ValidRequest(other) && LegacyV1Fingerprint(other) == LegacyV1Fingerprint(cmd) && !SameContent(other, cmd)
  {
    var i: nat :| i <= |DescriptionText(cmd)| && OccursAt(DescriptionText(cmd), i, DESCRIPTION);
    var head, tail := CutAt(DescriptionText(cmd), i);
    var more := DESCRIPTION + head;
    other := cmd.(title := cmd.title + more, description := Some(tail));
    Regroup4(cmd.title, DESCRIPTION, head);
    Recut(cmd.title, head, tail);
    SameTail(other, cmd);
    LongerIsNotBlank(cmd.title, more);
    SameTextIsValid(cmd, other);
  }

  lemma LongerIsNotBlank(s: string, t: string)
    requires !Blank(s)
    ensures !Blank(s + t)
  {
    var k :| 0 <= k < |s| && !IsSpace(s[k]);
    assert (s + t)[k] == s[k];
  }

  // The blank head matters: this title has the separator, and yet its fingerprint stands for
  // no other valid request.
  lemma BlankHeadIsUnambiguous(cmd: Command)
    requires ValidRequest(cmd) && StorableFingerprint(LegacyV1Fingerprint(cmd))
    requires cmd.title == "|description=x" && cmd.description.None?
    ensures Contains(cmd.title, DESCRIPTION) && Unambiguous(cmd)
  {
    var title := cmd.title;
    assert OccursAt(title, 0, DESCRIPTION);
    forall i: nat ensures !TitleSplitsAt(title, i) {
      if OccursAt(title, i, DESCRIPTION) {
        OccurrenceChars(title, i);
      }
    }
    UnambiguousExactly(cmd);
  }

  lemma SameTail(a: Command, b: Command)
    requires a.project == b.project && a.milestone == b.milestone && a.priority == b.priority
    requires a.title + DESCRIPTION + DescriptionText(a) == b.title + DESCRIPTION + DescriptionText(b)
    ensures LegacyV1Fingerprint(a) == LegacyV1Fingerprint(b)
  {
    var head := "project_id=" + UuidText(a.project) + "|milestone_id=" + MilestoneText(a.milestone) + "|title=";
    Regroup(head, a.title, DESCRIPTION, DescriptionText(a), PRIORITY + PriorityAsStr(a.priority));
    Regroup(head, b.title, DESCRIPTION, DescriptionText(b), PRIORITY + PriorityAsStr(b.priority));
    Regroup4(head + a.title + DESCRIPTION + DescriptionText(a), PRIORITY, PriorityAsStr(a.priority));
    Regroup4(head + b.title + DESCRIPTION + DescriptionText(b), PRIORITY, PriorityAsStr(b.priority));
  }
}
