/** The page of one enrollment: loading the record and its documents, the
    status, archive and delete actions with their confirmations, the e-mail
    composer with its templates and attachment, and what the page shows. */
module EnrollmentDetail {
  import opened Wrappers
  import opened Text
  import Listing

  datatype BasicInfo = BasicInfo(firstName: Option<string>, middleName: Option<string>,
                                 lastName: Option<string>, suffix: Option<string>)

  datatype Enrollment = Enrollment(id: string, userId: string, status: string, studentName: string,
                                   email: string, contactNo: Option<string>, basicInfo: Option<BasicInfo>,
                                   archivedAt: Option<string>, schoolYear: Option<string>)

  datatype Doc = Doc(id: string, name: string, kind: string, url: string, status: string)

  /** A value a failed operation throws: an Error with its message, or
      anything else. */
  datatype Thrown = ErrorObject(message: string) | OtherValue

  /** `e instanceof Error ? e.message : fallback`. */
  function Message(thrown: Thrown, fallback: string): string {
    match thrown
    case ErrorObject(m) => m
    case OtherValue => fallback
  }

  // ---------------------------------------------------------------------
  // Derived values.

  /** `!!(enrollment && enrollment.archived_at)`. */
  predicate IsArchived(enrollment: Option<Enrollment>) {
    enrollment.Some? && Truthy(enrollment.value.archivedAt)
  }

  /** The back link and its label: the archive for an archived record, the
      list otherwise. */
  function BackLink(enrollment: Option<Enrollment>): (link: (string, string))
    ensures link.0 == "/archive" <==> IsArchived(enrollment)
    ensures link.0 == "/enrollments" <==> !IsArchived(enrollment)
    ensures link.1 == (if IsArchived(enrollment) then "Back to Archive" else "Back to Enrollments")
  {
    if IsArchived(enrollment) then ("/archive", "Back to Archive") else ("/enrollments", "Back to Enrollments")
  }

  /** The truthy strings among `parts`, in order (`filter(Boolean)`). */
  function TruthyParts(parts: seq<Option<string>>): (r: seq<string>)
    ensures |r| <= |parts|
    ensures forall i :: 0 <= i < |r| ==> r[i] != ""
    ensures r == [] <==> forall i :: 0 <= i < |parts| ==> !Truthy(parts[i])
    ensures forall x :: x in r <==> exists i :: 0 <= i < |parts| && parts[i] == Some(x) && x != ""
    decreases |parts|
  {
    if parts == [] then []
    else
      assert forall i :: 1 <= i < |parts| ==> parts[i] == parts[1..][i - 1];
      (if Truthy(parts[0]) then [parts[0].value] else []) + TruthyParts(parts[1..])
  }

  /** Filtering a concatenation is concatenating the filtered parts. */
  lemma {:induction false} TruthyPartsAppend(a: seq<Option<string>>, b: seq<Option<string>>)
    ensures TruthyParts(a + b) == TruthyParts(a) + TruthyParts(b)
    decreases |a|
  {
    if a != [] {
      var head := if Truthy(a[0]) then [a[0].value] else [];
      assert (a + b)[0] == a[0] && (a + b)[1..] == a[1..] + b;
      calc {
        TruthyParts(a + b);
        head + TruthyParts(a[1..] + b);
        { TruthyPartsAppend(a[1..], b); }
        head + (TruthyParts(a[1..]) + TruthyParts(b));
        (head + TruthyParts(a[1..])) + TruthyParts(b);
      }
    } else {
      assert a + b == b;
    }
  }

  function NameParts(enrollment: Enrollment): seq<string> {
    var bi := if enrollment.basicInfo.Some? then enrollment.basicInfo.value
              else BasicInfo(None, None, None, None);
    TruthyParts([bi.firstName, bi.middleName, bi.lastName, bi.suffix])
  }

  lemma {:induction false} JoinEmpty(xs: seq<string>, sep: char)
    requires forall i :: 0 <= i < |xs| ==> xs[i] != ""
    ensures Join(xs, sep) == "" <==> xs == []
    decreases |xs|
  {
    if |xs| >= 2 {
      assert |Join(xs, sep)| >= |xs[0] + [sep]|;
    }
  }

  /** The "Full name" row: the given name parts joined by single spaces, or
      '—' when there is none. */
  function FullName(enrollment: Enrollment): (name: string)
    ensures NameParts(enrollment) == [] ==> name == Dash
    ensures NameParts(enrollment) != [] ==> name == Join(NameParts(enrollment), ' ')
  {
    var joined := Join(NameParts(enrollment), ' ');
    JoinEmpty(NameParts(enrollment), ' ');
    if joined == "" then Dash else joined
  }

  /** When no name part holds a space, the full name splits back into the
      parts, so no part is lost, merged or reordered. */
  lemma FullNameWords(enrollment: Enrollment)
    requires NameParts(enrollment) != []
    requires forall i :: 0 <= i < |NameParts(enrollment)| ==> ' ' !in NameParts(enrollment)[i]
    ensures Split(FullName(enrollment), ' ') == NameParts(enrollment)
  {
    SplitJoin(NameParts(enrollment), ' ');
  }

  /** The buttons of the record's header. */
  datatype Action = Approve | Reject | SetPending | EmailStudent | ArchiveRecord | DeleteRecord

  /** The status a status button asks for. */
  function Target(a: Action): Option<string> {
    match a
    case Approve => Some("approved")
    case Reject => Some("rejected")
    case SetPending => Some("pending")
    case _ => None
  }

  /** The place of a button in the toolbar, left to right. */
  function Rank(a: Action): nat {
    match a
    case Approve => 0
    case Reject => 1
    case SetPending => 2
    case EmailStudent => 3
    case ArchiveRecord => 4
    case DeleteRecord => 5
  }

  /** An archived record offers only the e-mail button; any other record a
      button for each status it is not in, then e-mail, archive and delete. */
  function Actions(e: Enrollment): (acts: seq<Action>)
    ensures Truthy(e.archivedAt) ==> acts == [EmailStudent]
    ensures !Truthy(e.archivedAt) ==>
      && (Approve in acts <==> e.status != "approved")
      && (Reject in acts <==> e.status != "rejected")
      && (SetPending in acts <==> e.status != "pending")
      && |acts| >= 3 && acts[|acts| - 3..] == [EmailStudent, ArchiveRecord, DeleteRecord]
    ensures forall i, j :: 0 <= i < j < |acts| ==> Rank(acts[i]) < Rank(acts[j])
  {
    if Truthy(e.archivedAt) then [EmailStudent]
    else
      var buttons, tail := StatusButtons(e.status), [EmailStudent, ArchiveRecord, DeleteRecord];
      assert forall i :: 0 <= i < |tail| ==> Rank(tail[i]) == 3 + i;
      assert forall i :: |buttons| <= i < |buttons + tail| ==> (buttons + tail)[i] == tail[i - |buttons|];
      buttons + tail
  }

  /** The status buttons of a record that is not archived: one for each
      status it is not in, in the order approve, reject, set pending. */
  function StatusButtons(status: string): (b: seq<Action>)
    ensures Approve in b <==> status != "approved"
    ensures Reject in b <==> status != "rejected"
    ensures SetPending in b <==> status != "pending"
    ensures forall i :: 0 <= i < |b| ==> Rank(b[i]) <= 2
    ensures forall i, j :: 0 <= i < j < |b| ==> Rank(b[i]) < Rank(b[j])
  {
    (if status != "approved" then [Approve] else [])
    + (if status != "rejected" then [Reject] else [])
    + (if status != "pending" then [SetPending] else [])
  }

  /** `statusConfirmLabel`: the verb the confirmation dialog uses. */
  function ConfirmLabel(status: string): Option<string> {
    if status == "approved" then Some("approve")
    else if status == "rejected" then Some("reject")
    else if status == "pending" then Some("set to pending")
    else None
  }

  /** `{ ...prev, status }` when a record is loaded, else still none. */
  function Patched(enrollment: Option<Enrollment>, status: string): (r: Option<Enrollment>)
    ensures r.Some? <==> enrollment.Some?
    ensures r.Some? ==> r.value.status == status && r.value.(status := enrollment.value.status) == enrollment.value
  {
    if enrollment.Some? then Some(enrollment.value.(status := status)) else None
  }

  /** A status button never offers the status the record already has, its
      dialog has a verb for it, and once applied the button goes away. */
  lemma StatusButtonsChangeStatus(e: Enrollment, a: Action)
    requires a in Actions(e) && Target(a).Some?
    ensures Target(a).value != e.status
    ensures ConfirmLabel(Target(a).value).Some?
    ensures a !in Actions(Patched(Some(e), Target(a).value).value)
  {
  }

  /** A record that is not archived and has one of the three reviewable
      statuses offers two status buttons; any other status offers three. */
  lemma StatusButtonCount(e: Enrollment)
    requires !Truthy(e.archivedAt)
    ensures e.status in {"pending", "approved", "rejected"} ==> |Actions(e)| == 5
    ensures e.status !in {"pending", "approved", "rejected"} ==> |Actions(e)| == 6
  {
  }

  /** `getDocuments(...).catch(() => [])` then `Array.isArray(docs) ? docs : []`:
      a failure, or a reply whose data is not a list (None here), gives no
      documents. */
  function DocumentList(outcome: Result<Option<seq<Doc>>, string>): (docs: seq<Doc>)
    ensures outcome.Success? && outcome.value.Some? ==> docs == outcome.value.value
    ensures outcome.Failure? || outcome.value.None? ==> docs == []
  {
    match outcome
    case Success(Some(d)) => d
    case _ => []
  }

  /** How the preview dialog shows a document. */
  datatype Preview = ImagePreview | PdfPreview | NoPreview

  function PreviewKind(kind: string): (p: Preview)
    ensures p == ImagePreview <==> "image/" <= kind
    ensures p == PdfPreview <==> kind == "application/pdf"
  {
    if "image/" <= kind then
      assert kind[0] == 'i';
      ImagePreview
    else if kind == "application/pdf" then PdfPreview
    else NoPreview
  }

  // ---------------------------------------------------------------------
  // E-mail.

  datatype EmailType = ApprovedEmail | RejectedEmail | IncompleteEmail

  datatype Template = Template(subject: string, body: string)

  /** Every letter opens with the greeting and closes with the signature. */
  const Greeting := "Dear Student,\n\n"
  const Signature := "\n\nRegistrar Office"

  /** The approval letter. */
  const ApprovedSubject := "Enrollment Approved \U{2013} Next Steps"
  const ApprovedBody :=
    Greeting + "Your enrollment application has been APPROVED.\n\nPlease complete the following by the deadline (fill in deadline):\n\U{2022} [Instructions \U{2013} type here]\n\U{2022} [Any requirements \U{2013} type here]\n\nYou may contact the registrar office for questions." + Signature

  /** The letter listing missing requirements. */
  const IncompleteSubject := "Enrollment \U{2013} Incomplete Requirements"
  const IncompleteBody :=
    Greeting + "Your enrollment application is missing some requirements.\n\nMissing requirements:\n\U{2022} [List what is missing \U{2013} type here]\n\nHow to resubmit:\n\U{2022} [Instructions \U{2013} type here]\n\nPlease submit the missing documents by [deadline]." + Signature

  /** The rejection letter. */
  const RejectedSubject := "Enrollment Application \U{2013} Update"
  const RejectedBody :=
    Greeting + "Your enrollment application could not be approved at this time.\n\nReason: [Specify cause \U{2013} e.g. invalid document, incomplete grades, duplicate record]\n\nYou may reapply or correct your submission. Instructions:\n\U{2022} [Type instructions here]" + Signature

  /** `EMAIL_TEMPLATES`. */
  function TemplateFor(t: EmailType): Template {
    match t
    case ApprovedEmail => Template(ApprovedSubject, ApprovedBody)
    case IncompleteEmail => Template(IncompleteSubject, IncompleteBody)
    case RejectedEmail => Template(RejectedSubject, RejectedBody)
  }

  datatype Attachment = Attachment(name: string, base64: string)

  /** The body of the send request. */
  datatype EmailPayload = EmailPayload(kind: EmailType, subject: string, body: string, attachment: Option<Attachment>)

  /** The send guard and payload: nothing when the trimmed subject or body
      is empty, else the trimmed texts with the attachment iff one is held. */
  function Compose(kind: EmailType, subject: string, body: string, file: Option<Attachment>): (p: Option<EmailPayload>)
    ensures p.None? <==> Trim(subject) == "" || Trim(body) == ""
    ensures p.Some? ==> p.value.kind == kind && p.value.attachment == file
    ensures p.Some? ==> p.value.subject == Trim(subject) && p.value.body == Trim(body)
  {
    if Trim(subject) == "" || Trim(body) == "" then None
    else Some(EmailPayload(kind, Trim(subject), Trim(body), file))
  }

  /** What is sent is non-empty and already trimmed: composing it again
      sends it unchanged. */
  lemma ComposedIsTrimmed(kind: EmailType, subject: string, body: string, file: Option<Attachment>)
    requires Compose(kind, subject, body, file).Some?
    ensures var p := Compose(kind, subject, body, file).value;
      && p.subject != "" && p.body != ""
      && Compose(kind, p.subject, p.body, file) == Some(p)
  {
    TrimIdempotent(subject);
    TrimIdempotent(body);
  }

  /** Every template passes the send guard unedited. */
  lemma TemplatesSendable(t: EmailType, file: Option<Attachment>)
    ensures Compose(t, TemplateFor(t).subject, TemplateFor(t).body, file).Some?
  {
    var subject, body := TemplateFor(t).subject, TemplateFor(t).body;
    assert body[0] == Greeting[0] == 'D';
    assert subject[0] == 'E';
    Sendable(t, subject, body, file);
  }

  /** Texts that start with something other than white space pass the send guard. */
  lemma Sendable(kind: EmailType, subject: string, body: string, file: Option<Attachment>)
    requires subject != [] && !IsWhiteSpace(subject[0])
    requires body != [] && !IsWhiteSpace(body[0])
    ensures Compose(kind, subject, body, file).Some?
  {
    TrimNonEmpty(subject);
    TrimNonEmpty(body);
  }

  /** The banner after a successful send. */
  function SentMessage(enrollment: Option<Enrollment>): (text: string)
    ensures enrollment.Some? && enrollment.value.email != "" ==> text == "Email sent to " + enrollment.value.email + "."
    ensures enrollment.None? || enrollment.value.email == "" ==> text == "Email sent to student."
  {
    "Email sent to " + (if enrollment.Some? && enrollment.value.email != "" then enrollment.value.email else "student") + "."
  }

  /** The largest attachment accepted, in bytes (10 MiB; a file of exactly
      this size is accepted). */
  const MaxAttachmentBytes: nat := 10 * 1024 * 1024

  /** The file input's choice: its name and size. */
  datatype ChosenFile = ChosenFile(name: string, size: nat)

  /** The base64 text of a data URL: the second comma-separated field when
      there is a comma, else the whole string. */
  function Base64Payload(dataUrl: string): (b: string)
    ensures ',' !in b
    ensures ',' !in dataUrl ==> b == dataUrl
    ensures forall i :: 0 <= i < |dataUrl| && dataUrl[i] == ',' && ',' !in dataUrl[..i] ==>
              b == dataUrl[i + 1..] || b + "," <= dataUrl[i + 1..]
  {
    if ',' in dataUrl then
      var b := Split(dataUrl, ',')[1];
      assert forall i :: 0 <= i < |dataUrl| && dataUrl[i] == ',' && ',' !in dataUrl[..i] ==>
               b == dataUrl[i + 1..] || b + "," <= dataUrl[i + 1..] by {
        forall i | 0 <= i < |dataUrl| && dataUrl[i] == ',' && ',' !in dataUrl[..i]
          ensures b == dataUrl[i + 1..] || b + "," <= dataUrl[i + 1..]
        {
          assert dataUrl == dataUrl[..i] + [','] + dataUrl[i + 1..];
          SplitSecondField(dataUrl[..i], dataUrl[i + 1..], ',');
          FirstField(dataUrl[i + 1..], ',');
        }
      }
      b
    else dataUrl
  }

  /** For a base64 data URL (section 3 of RFC 2397, "data:" mediatype
      ";base64," data) the payload is exactly the data: neither the media
      type nor the base64 alphabet holds a comma. */
  lemma DataUrlPayload(mediaType: string, data: string)
    requires ',' !in mediaType && ',' !in data
    ensures Base64Payload("data:" + mediaType + ";base64," + data) == data
  {
    var head := "data:" + mediaType + ";base64";
    assert ',' !in head;
    assert Join([head, data], ',') == "data:" + mediaType + ";base64," + data;
    SplitJoin([head, data], ',');
  }

  // ---------------------------------------------------------------------
  // The page state.

  /** All state cells of the page, for stating what a handler changes. */
  datatype DetailState = DetailState(
    enrollment: Option<Enrollment>, documents: seq<Doc>, loading: bool, error: string,
    emailSuccess: string, updating: bool, previewDoc: Option<Doc>, confirmStatus: Option<string>,
    showArchiveModal: bool, archiveSchoolYear: string, showDeleteConfirm: bool,
    showEmailModal: bool, emailType: EmailType, emailSubject: string, emailBody: string,
    emailFile: Option<Attachment>, sendingEmail: bool)

  /** The page state once a send settles. */
  function AfterSend(s: DetailState, outcome: Result<Unit, Thrown>): DetailState {
    match outcome
    case Success(_) => s.(showEmailModal := false, emailFile := None, emailSuccess := SentMessage(s.enrollment), sendingEmail := false)
    case Failure(t) => s.(error := Message(t, "Failed to send email"), emailSuccess := "", sendingEmail := false)
  }

  /** The school years the archive dialog offers; the second is preselected. */
  const ArchiveYearOptions := ["2024-2025", "2025-2026", "2026-2027", "2027-2028"]

  class DetailView {
    /** The route's `:id`, "" when absent. */
    const id: string
    var enrollment: Option<Enrollment>
    var documents: seq<Doc>
    var loading: bool
    var error: string
    var emailSuccess: string
    var updating: bool
    var previewDoc: Option<Doc>
    var confirmStatus: Option<string>
    var showArchiveModal: bool
    var archiveSchoolYear: string
    var showDeleteConfirm: bool
    var showEmailModal: bool
    var emailType: EmailType
    var emailSubject: string
    var emailBody: string
    var emailFile: Option<Attachment>
    var sendingEmail: bool

    function Current(): DetailState
      reads this
    {
      DetailState(enrollment, documents, loading, error, emailSuccess, updating, previewDoc,
                  confirmStatus, showArchiveModal, archiveSchoolYear, showDeleteConfirm,
                  showEmailModal, emailType, emailSubject, emailBody, emailFile, sendingEmail)
    }

    constructor (id: string)
      ensures this.id == id
      ensures Current() == DetailState(None, [], true, "", "", false, None, None, false, ArchiveYearOptions[1],
                                       false, false, ApprovedEmail, "", "", None, false)
    {
      this.id := id;
      enrollment := None;
      documents := [];
      loading := true;
      error := "";
      emailSuccess := "";
      updating := false;
      previewDoc := None;
      confirmStatus := None;
      showArchiveModal := false;
      archiveSchoolYear := ArchiveYearOptions[1];
      showDeleteConfirm := false;
      showEmailModal := false;
      emailType := ApprovedEmail;
      emailSubject := "";
      emailBody := "";
      emailFile := None;
      sendingEmail := false;
    }

    /** The load effect. Without an id nothing happens. Otherwise the record
        is fetched; on success it is kept and the documents of its user are
        fetched (a failure there means no documents); a failure to fetch the
        record becomes the error. Loading ends either way. */
    method Load(record: Result<Enrollment, string>, docs: Result<Option<seq<Doc>>, string>)
      returns (docsRequestedFor: Option<string>)
      modifies this
      ensures id == "" ==> docsRequestedFor == None && Current() == old(Current())
      ensures id != "" && record.Success? ==>
        && docsRequestedFor == Some(record.value.userId)
        && Current() == old(Current()).(enrollment := Some(record.value), documents := DocumentList(docs), loading := false)
      ensures id != "" && record.Failure? ==>
        && docsRequestedFor == None
        && Current() == old(Current()).(error := record.error, loading := false)
    {
      if id == "" {
        docsRequestedFor := None;
        return;
      }
      loading := true;
      match record {
        case Success(e) =>
          enrollment := Some(e);
          docsRequestedFor := Some(e.userId);
          documents := DocumentList(docs);
        case Failure(m) =>
          docsRequestedFor := None;
          error := m;
      }
      loading := false;
    }

    /** A status button: the confirmation dialog opens for that status. */
    method AskStatus(status: string)
      modifies this
      ensures Current() == old(Current()).(confirmStatus := Some(status))
    {
      confirmStatus := Some(status);
    }

    /** Cancel, or a click outside the dialog. */
    method CancelStatus()
      modifies this
      ensures Current() == old(Current()).(confirmStatus := None)
    {
      confirmStatus := None;
    }

    /** `setStatus`: the dialog closes, the update is sent; on success only
        the status of the loaded record changes, on failure the record stays
        and the message becomes the error. */
    method SetStatus(status: string, outcome: Result<Unit, Thrown>) returns (sent: Option<(string, string)>)
      modifies this
      ensures id == "" ==> sent == None && Current() == old(Current())
      ensures id != "" ==> sent == Some((id, status))
      ensures id != "" && outcome.Success? ==>
        Current() == old(Current()).(confirmStatus := None, updating := false, enrollment := Patched(old(enrollment), status))
      ensures id != "" && outcome.Failure? ==>
        Current() == old(Current()).(confirmStatus := None, updating := false, error := Message(outcome.error, "Failed to update"))
    {
      if id == "" {
        sent := None;
        return;
      }
      confirmStatus := None;
      updating := true;
      sent := Some((id, status));
      match outcome {
        case Success(_) => enrollment := Patched(enrollment, status);
        case Failure(t) => error := Message(t, "Failed to update");
      }
      updating := false;
    }

    /** The Archive button, the dialog's year select, and its Cancel. */
    method OpenArchiveDialog()
      modifies this
      ensures Current() == old(Current()).(showArchiveModal := true)
    {
      showArchiveModal := true;
    }

    method ChooseArchiveYear(year: string)
      modifies this
      ensures Current() == old(Current()).(archiveSchoolYear := year)
    {
      archiveSchoolYear := year;
    }

    method CloseArchiveDialog()
      modifies this
      ensures Current() == old(Current()).(showArchiveModal := false)
    {
      showArchiveModal := false;
    }

    /** `handleArchive`: the dialog closes and the record is archived under
        the chosen year; success leaves for the archive page, a failure
        becomes the error. */
    method HandleArchive(outcome: Result<Unit, Thrown>) returns (sent: Option<(string, string)>, navigateTo: Option<string>)
      modifies this
      ensures id == "" ==> sent == None && navigateTo == None && Current() == old(Current())
      ensures id != "" ==> sent == Some((id, old(archiveSchoolYear)))
      ensures id != "" && outcome.Success? ==>
        navigateTo == Some("/archive") && Current() == old(Current()).(showArchiveModal := false, updating := false)
      ensures id != "" && outcome.Failure? ==>
        && navigateTo == None
        && Current() == old(Current()).(showArchiveModal := false, updating := false, error := Message(outcome.error, "Failed to archive"))
    {
      if id == "" {
        sent, navigateTo := None, None;
        return;
      }
      showArchiveModal := false;
      updating := true;
      sent := Some((id, archiveSchoolYear));
      match outcome {
        case Success(_) => navigateTo := Some("/archive");
        case Failure(t) =>
          navigateTo := None;
          error := Message(t, "Failed to archive");
      }
      updating := false;
    }

    method OpenDeleteConfirm()
      modifies this
      ensures Current() == old(Current()).(showDeleteConfirm := true)
    {
      showDeleteConfirm := true;
    }

    method CloseDeleteConfirm()
      modifies this
      ensures Current() == old(Current()).(showDeleteConfirm := false)
    {
      showDeleteConfirm := false;
    }

    /** `handleDelete`: the dialog closes and the record is deleted; success
        leaves for the list, a failure becomes the error. */
    method HandleDelete(outcome: Result<Unit, Thrown>) returns (sent: Option<string>, navigateTo: Option<string>)
      modifies this
      ensures id == "" ==> sent == None && navigateTo == None && Current() == old(Current())
      ensures id != "" ==> sent == Some(id)
      ensures id != "" && outcome.Success? ==>
        navigateTo == Some("/enrollments") && Current() == old(Current()).(showDeleteConfirm := false, updating := false)
      ensures id != "" && outcome.Failure? ==>
        && navigateTo == None
        && Current() == old(Current()).(showDeleteConfirm := false, updating := false, error := Message(outcome.error, "Failed to delete"))
    {
      if id == "" {
        sent, navigateTo := None, None;
        return;
      }
      showDeleteConfirm := false;
      updating := true;
      sent := Some(id);
      match outcome {
        case Success(_) => navigateTo := Some("/enrollments");
        case Failure(t) =>
          navigateTo := None;
          error := Message(t, "Failed to delete");
      }
      updating := false;
    }

    /** `openEmailModal(t)`: the template fills subject and body, any held
        attachment is dropped, and the composer opens. */
    method OpenEmailModal(kind: EmailType)
      modifies this
      ensures Current() == old(Current()).(emailType := kind, emailSubject := TemplateFor(kind).subject,
                                           emailBody := TemplateFor(kind).body, emailFile := None, showEmailModal := true)
    {
      var template := TemplateFor(kind);
      emailType, emailSubject, emailBody := kind, template.subject, template.body;
      emailFile := None;
      showEmailModal := true;
    }

    /** `onEmailTypeChange(t)`: the template replaces subject and body; the
        attachment is kept. */
    method OnEmailTypeChange(kind: EmailType)
      modifies this
      ensures Current() == old(Current()).(emailType := kind, emailSubject := TemplateFor(kind).subject,
                                           emailBody := TemplateFor(kind).body)
    {
      var template := TemplateFor(kind);
      emailType, emailSubject, emailBody := kind, template.subject, template.body;
    }

    method EditSubject(subject: string)
      modifies this
      ensures Current() == old(Current()).(emailSubject := subject)
    {
      emailSubject := subject;
    }

    method EditBody(body: string)
      modifies this
      ensures Current() == old(Current()).(emailBody := body)
    {
      emailBody := body;
    }

    method RemoveAttachment()
      modifies this
      ensures Current() == old(Current()).(emailFile := None)
    {
      emailFile := None;
    }

    method CloseEmailModal()
      modifies this
      ensures Current() == old(Current()).(showEmailModal := false)
    {
      showEmailModal := false;
    }

    /** `handleSendEmail`: nothing happens without an id or when the guard
        fails; otherwise the composed payload is sent. */
    method HandleSendEmail(outcome: Result<Unit, Thrown>) returns (sent: Option<EmailPayload>)
      modifies this
      ensures sent == (if id == "" then None else Compose(old(emailType), old(emailSubject), old(emailBody), old(emailFile)))
      ensures sent.None? ==> Current() == old(Current())
      ensures sent.Some? ==> Current() == AfterSend(old(Current()), outcome)
    {
      if id == "" {
        return None;
      }
      sent := Compose(emailType, emailSubject, emailBody, emailFile);
      if sent.Some? {
        Deliver(outcome);
      }
    }

    /** The send itself: success closes the composer, drops the attachment
        and shows the banner; a failure becomes the error and clears the
        banner. */
    method Deliver(outcome: Result<Unit, Thrown>)
      modifies this
      ensures Current() == AfterSend(old(Current()), outcome)
    {
      sendingEmail := true;
      match outcome {
        case Success(_) =>
          showEmailModal := false;
          emailFile := None;
          emailSuccess := SentMessage(enrollment);
        case Failure(t) =>
          error := Message(t, "Failed to send email");
          emailSuccess := "";
      }
      sendingEmail := false;
    }

    /** `onEmailFileChange`: no file, nothing; a file over 10 MB sets the
        error and is not read (a file already attached stays attached);
        otherwise reading the file starts. */
    method OnEmailFileChange(file: Option<ChosenFile>) returns (reading: Option<string>)
      modifies this
      ensures file.None? ==> reading == None && Current() == old(Current())
      ensures file.Some? && file.value.size > MaxAttachmentBytes ==>
        reading == None && Current() == old(Current()).(error := "Attachment must be under 10MB")
      ensures file.Some? && file.value.size <= MaxAttachmentBytes ==>
        reading == Some(file.value.name) && Current() == old(Current())
    {
      if file.None? {
        reading := None;
        return;
      }
      if file.value.size > MaxAttachmentBytes {
        error := "Attachment must be under 10MB";
        reading := None;
        return;
      }
      reading := Some(file.value.name);
    }

    /** The reader's `onload`: the file becomes the attachment with the
        base64 part of its data URL. */
    method OnFileRead(name: string, dataUrl: string)
      modifies this
      ensures Current() == old(Current()).(emailFile := Some(Attachment(name, Base64Payload(dataUrl))))
      ensures ',' !in emailFile.value.base64
    {
      emailFile := Some(Attachment(name, Base64Payload(dataUrl)));
    }

    method PreviewDocument(d: Doc)
      modifies this
      ensures Current() == old(Current()).(previewDoc := Some(d))
    {
      previewDoc := Some(d);
    }

    method ClosePreview()
      modifies this
      ensures Current() == old(Current()).(previewDoc := None)
    {
      previewDoc := None;
    }
  }

  // ---------------------------------------------------------------------
  // What the page shows.

  datatype Page =
    | LoadingScreen
    | ErrorScreen(message: string)
    | NotFound
    | Detail(success: Option<string>, errorBanner: Option<string>, back: (string, string),
             actions: seq<Action>, fullName: string, badge: string, contact: string)

  predicate ShowsError(v: Page, message: string) {
    (v.ErrorScreen? && v.message == message) || (v.Detail? && v.errorBanner == Some(message))
  }

  function DetailOf(s: DetailState, e: Enrollment, errorBanner: Option<string>): Page {
    Detail(if s.emailSuccess != "" then Some(s.emailSuccess) else None, errorBanner,
           BackLink(Some(e)), Actions(e), FullName(e), Listing.BadgeClass(e.status), OrDash(e.contactNo))
  }

  /** The page as written: the error text is shown only while no record is
      loaded, so an error raised by an action on a loaded record is never
      displayed. */
  function PageAsWritten(id: string, s: DetailState): (v: Page)
    ensures v == LoadingScreen <==> s.loading || id == ""
    ensures v.ErrorScreen? <==> !s.loading && id != "" && s.error != "" && s.enrollment.None?
    ensures v.ErrorScreen? ==> v.message == s.error
    ensures v == NotFound <==> !s.loading && id != "" && s.enrollment.None? && s.error == ""
    ensures v.Detail? <==> !s.loading && id != "" && s.enrollment.Some?
    ensures v.Detail? ==> v == DetailOf(s, s.enrollment.value, None)
  {
    if s.loading || id == "" then LoadingScreen
    else if s.error != "" && s.enrollment.None? then ErrorScreen(s.error)
    else if s.enrollment.None? then NotFound
    else DetailOf(s, s.enrollment.value, None)
  }

  /** A status update that fails on a loaded record sets the error, and the
      page as written does not show it. */
  lemma FailedUpdateHiddenAsWritten(id: string, s: DetailState, message: string)
    requires id != "" && !s.loading && s.enrollment.Some? && message != ""
    ensures var after := s.(confirmStatus := None, updating := false, error := message);
      && after.error == message
      && PageAsWritten(id, after).Detail?
      && !ShowsError(PageAsWritten(id, after), message)
  {
  }

  /** The page with the error shown in every state once loading is over:
      on its own while no record is loaded, as a banner above a loaded one. */
  function PageFor(id: string, s: DetailState): (v: Page)
    ensures v == LoadingScreen <==> s.loading || id == ""
    ensures v.ErrorScreen? <==> !s.loading && id != "" && s.error != "" && s.enrollment.None?
    ensures v.ErrorScreen? ==> v.message == s.error
    ensures v.Detail? <==> !s.loading && id != "" && s.enrollment.Some?
    ensures v.Detail? ==> v == DetailOf(s, s.enrollment.value, v.errorBanner)
    ensures v.Detail? ==> (v.errorBanner.Some? <==> s.error != "")
    ensures v.Detail? && v.success.Some? ==> v.success.value == s.emailSuccess
    ensures v == NotFound <==> !s.loading && id != "" && s.enrollment.None? && s.error == ""
  {
    if s.loading || id == "" then LoadingScreen
    else if s.error != "" && s.enrollment.None? then ErrorScreen(s.error)
    else if s.enrollment.None? then NotFound
    else DetailOf(s, s.enrollment.value, if s.error != "" then Some(s.error) else None)
  }

  /** Once loading is over, every error is on the page. */
  lemma ErrorAlwaysShown(id: string, s: DetailState)
    requires id != "" && !s.loading && s.error != ""
    ensures ShowsError(PageFor(id, s), s.error)
  {
  }

  /** Where no error is pending, the two pages agree. */
  lemma ScreensAgreeWithoutError(id: string, s: DetailState)
    requires s.error == ""
    ensures PageFor(id, s) == PageAsWritten(id, s)
  {
  }
}
