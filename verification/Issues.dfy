// The entities of the issue-create path (crates/dandori-domain, crates/dandori-store).
module Issues {
  import opened Base

  datatype Priority = Low | Medium | High | Urgent
  datatype StateCategory = Open | Active | Done | Cancelled

  datatype Issue = Issue(
    id: Uuid,
    workspace: Uuid,
    project: Uuid,
    milestone: Option<Uuid>,
    title: string,
    description: Option<string>,
    state: StateCategory,
    priority: Priority,
    archivedAt: Option<Time>,
    rowVersion: int,
    createdAt: Time,
    updatedAt: Time)

  datatype Command = Command(
    commandId: Uuid,
    workspace: Uuid,
    key: string,
    fingerprint: string,
    issueId: Uuid,
    project: Uuid,
    milestone: Option<Uuid>,
    title: string,
    description: Option<string>,
    priority: Priority,
    actor: Uuid)

  // IssueCreatedEventV1, without the copies of command fields in its payload.
  datatype CreatedEvent = CreatedEvent(eventId: Uuid, occurredAt: Time)

  // ----- what a command must be before it reaches the store

  const MAX_NAME_LENGTH: nat := 200
  const MAX_IDEMPOTENCY_KEY_LENGTH: nat := 128
  const MAX_REQUEST_FINGERPRINT_LENGTH: nat := 128
  const MAX_ISSUE_DESCRIPTION_LENGTH: nat := 4000

  // char::is_whitespace: the White_Space property of Unicode.
  predicate IsSpace(c: char) {
    var u := c as int;
    || 0x9 <= u <= 0xD || u == 0x20 || u == 0x85 || u == 0xA0 || u == 0x1680 || 0x2000 <= u <= 0x200A
    || u == 0x2028 || u == 0x2029 || u == 0x202F || u == 0x205F || u == 0x3000
  }

  // trim().is_empty()
  predicate Blank(s: string) { forall i :: 0 <= i < |s| ==> IsSpace(s[i]) }

  // A code point takes as many bytes as the bits of its number need: 7, 11, 16 or 21 of them fit.
  function Utf8Width(c: char): (w: nat)
    ensures 1 <= w <= 4 && (c as int) < [0x80, 0x800, 0x1_0000, 0x11_0000][w - 1]
    ensures w > 1 ==> (c as int) >= [0x80, 0x800, 0x1_0000][w - 2]
  {
    var u := c as int;
    if u < 0x80 then 1 else if u < 0x800 then 2 else if u < 0x1_0000 then 3 else 4
  }

  // String::len(), in bytes.
  function Utf8Length(s: string): (n: nat)
    ensures n <= 4 * |s|
  {
    if s == "" then 0 else Utf8Width(s[0]) + Utf8Length(s[1..])
  }

  // CreateIssueCommandV1::validate
  predicate Validates(cmd: Command) {
    && !Blank(cmd.title) && Utf8Length(cmd.title) <= MAX_NAME_LENGTH
    && !Blank(cmd.key) && Utf8Length(cmd.key) <= MAX_IDEMPOTENCY_KEY_LENGTH
    && !Blank(cmd.fingerprint) && Utf8Length(cmd.fingerprint) <= MAX_REQUEST_FINGERPRINT_LENGTH
    && (cmd.description.Some? ==> Utf8Length(cmd.description.value) <= MAX_ISSUE_DESCRIPTION_LENGTH)
  }

  lemma {:induction false} AtLeastOneByteEach(s: string)
    ensures |s| <= Utf8Length(s)
    decreases |s|
  {
    if s != "" {
      AtLeastOneByteEach(s[1..]);
    }
  }

  // A command that validates meets the length checks of the columns it is stored in, which
  // count characters: title, issue description, idempotency key and request fingerprint.
  lemma ValidatedFitsColumns(cmd: Command)
    requires Validates(cmd)
    ensures 1 <= |cmd.title| <= 200
    ensures cmd.description.Some? ==> |cmd.description.value| <= 4000
    ensures 1 <= |cmd.key| <= 128 && 1 <= |cmd.fingerprint| <= 128
  {
    AtLeastOneByteEach(cmd.title);
    AtLeastOneByteEach(cmd.key);
    AtLeastOneByteEach(cmd.fingerprint);
    if cmd.description.Some? {
      AtLeastOneByteEach(cmd.description.value);
    }
  }

  ghost predicate Ascii(s: string) { forall i :: 0 <= i < |s| ==> (s[i] as int) < 0x80 }

  lemma {:induction false} OneByteEach(s: string)
    requires Ascii(s)
    ensures Utf8Length(s) == |s|
    decreases |s|
  {
    if s != "" {
      OneByteEach(s[1..]);
    }
  }

  // On ASCII texts those checks, and no text but the description blank, are all it asks.
  lemma AsciiValidatesExactly(cmd: Command)
    requires Ascii(cmd.title) && Ascii(cmd.key) && Ascii(cmd.fingerprint)
    requires cmd.description.Some? ==> Ascii(cmd.description.value)
    ensures Validates(cmd) <==>
      && !Blank(cmd.title) && !Blank(cmd.key) && !Blank(cmd.fingerprint)
      && |cmd.title| <= 200 && |cmd.key| <= 128 && |cmd.fingerprint| <= 128
      && (cmd.description.Some? ==> |cmd.description.value| <= 4000)
  {
    OneByteEach(cmd.title);
    OneByteEach(cmd.key);
    OneByteEach(cmd.fingerprint);
    if cmd.description.Some? {
      OneByteEach(cmd.description.value);
    }
  }

  // The twenty-five code points of the White_Space property.
  lemma SpacesAre(c: char)
    ensures IsSpace(c) <==>
      (c as int) in {0x09, 0x0A, 0x0B, 0x0C, 0x0D, 0x20, 0x85, 0xA0, 0x1680, 0x2000, 0x2001, 0x2002, 0x2003, 0x2004,
        0x2005, 0x2006, 0x2007, 0x2008, 0x2009, 0x200A, 0x2028, 0x2029, 0x202F, 0x205F, 0x3000}
  {
  }

  // ----- rows as the database returns them

  datatype IssueRow = IssueRow(
    id: Uuid,
    workspace: Uuid,
    project: Uuid,
    milestone: Option<Uuid>,
    title: string,
    description: Option<string>,
    stateCategory: string,
    priority: string,
    archivedAt: Option<Time>,
    rowVersion: int,
    createdAt: Time,
    updatedAt: Time)

  function PriorityAsStr(p: Priority): string {
    match p
    case Low => "low"
    case Medium => "medium"
    case High => "high"
    case Urgent => "urgent"
  }

  function ParsePriority(text: string): Result<Priority, StoreError> {
    if text == "low" then Success(Low)
    else if text == "medium" then Success(Medium)
    else if text == "high" then Success(High)
    else if text == "urgent" then Success(Urgent)
    else Failure(InvalidPriority(text))
  }

  function ParseStateCategory(text: string): Result<StateCategory, StoreError> {
    if text == "open" then Success(Open)
    else if text == "active" then Success(Active)
    else if text == "done" then Success(Done)
    else if text == "cancelled" then Success(Cancelled)
    else Failure(InvalidState(text))
  }

  // Each of these words decodes to what it names, and no other text decodes.
  lemma WordsDecode(text: string)
    ensures ParsePriority(text) == match text
      case "low" => Success(Low)
      case "medium" => Success(Medium)
      case "high" => Success(High)
      case "urgent" => Success(Urgent)
      case _ => Failure(InvalidPriority(text))
    ensures ParseStateCategory(text) == match text
      case "open" => Success(Open)
      case "active" => Success(Active)
      case "done" => Success(Done)
      case "cancelled" => Success(Cancelled)
      case _ => Failure(InvalidState(text))
  {
  }

  function MapIssueRow(row: IssueRow): Result<Issue, StoreError> {
    var state := ParseStateCategory(row.stateCategory);
    if state.Failure? then Failure(state.error) else
    var priority := ParsePriority(row.priority);
    if priority.Failure? then Failure(priority.error) else
    Success(Issue(row.id, row.workspace, row.project, row.milestone, row.title, row.description,
                  state.value, priority.value, row.archivedAt, row.rowVersion, row.createdAt, row.updatedAt))
  }

  // INSERT INTO issue ... RETURNING.
  function InsertedRow(cmd: Command, occurredAt: Time): IssueRow {
    IssueRow(cmd.issueId, cmd.workspace, cmd.project, cmd.milestone, cmd.title, cmd.description,
             "open", PriorityAsStr(cmd.priority), None, 0, occurredAt, occurredAt)
  }

  // The issue a caller asked for.
  function NewIssue(cmd: Command, occurredAt: Time): Issue {
    Issue(cmd.issueId, cmd.workspace, cmd.project, cmd.milestone, cmd.title, cmd.description,
          Open, cmd.priority, None, 0, occurredAt, occurredAt)
  }

  // The returned row always decodes, and to the issue asked for.
  lemma InsertedRowDecodes(cmd: Command, occurredAt: Time)
    ensures MapIssueRow(InsertedRow(cmd, occurredAt)) == Success(NewIssue(cmd, occurredAt))
  {
    match cmd.priority {
      case Low => case Medium => case High => case Urgent =>
    }
  }
}
