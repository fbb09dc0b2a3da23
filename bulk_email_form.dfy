/** `BulkEmailForm`: the form state behind the bulk-send page. The address
    list shown as chips is parsed from the textarea, or from a dropped file
    whose addresses are then written back into the textarea one per line;
    the two parsers agree on that text, so the chips always match the
    textarea. */
module BulkEmailForm {
  import opened Wrappers
  import opened Strings
  import opened Seqs

  /** `/[,\n]/`, the textarea rule. */
  const TextareaSeparators: set<char> := {',', '\n'}

  /** `/[,\n\r]/`, the file rule. */
  const FileSeparators: set<char> := {',', '\n', '\r'}

  predicate NonEmpty(t: string) {
    |t| > 0
  }

  predicate HasAt(t: string) {
    |t| > 0 && '@' in t
  }

  /** `handleEmailsChange`: split on single commas and line feeds, trim,
      drop the empty pieces. */
  function TextareaEmails(value: string): (r: seq<string>)
    ensures forall k :: 0 <= k < |r| ==> Clean(r[k])
  {
    ParsedAreClean(value, TextareaSeparators, NonEmpty);
    Filter(Map(Split(value, TextareaSeparators), Trim), NonEmpty)
  }

  /** `handleFileUpload`: split on commas, line feeds and carriage
      returns, trim, keep the pieces that hold an `@`. */
  function FileEmails(content: string): (r: seq<string>)
    ensures forall k :: 0 <= k < |r| ==> Clean(r[k]) && HasAt(r[k])
  {
    ParsedAreClean(content, FileSeparators, HasAt);
    Filter(Map(Split(content, FileSeparators), Trim), HasAt)
  }

  /** An address as the textarea rule gives it back: trimmed, non-empty,
      no comma, no line feed. */
  predicate Clean(t: string) {
    IsTrimmed(t) && NonEmpty(t) && NoneIn(t, TextareaSeparators)
  }

  /** What both parsers yield is clean; the file parser's items also hold
      an `@`. */
  lemma ParsedAreClean(s: string, cs: set<char>, keep: string -> bool)
    requires TextareaSeparators <= cs
    requires forall t :: keep(t) ==> NonEmpty(t)
    ensures forall t :: t in Filter(Map(Split(s, cs), Trim), keep) ==> Clean(t) && keep(t)
  {
    var pieces := Split(s, cs);
    var trimmed := Map(pieces, Trim);
    forall t | t in Filter(trimmed, keep) ensures Clean(t) && keep(t) {
      FilterMembership(trimmed, keep, t);
      var j :| 0 <= j < |trimmed| && trimmed[j] == t;
      TrimSpec(pieces[j]);
      TrimNoneIn(pieces[j], cs);
    }
  }

  /** Trimming already trimmed pieces changes none of them. */
  lemma MapTrimFixed(xs: seq<string>)
    requires forall k :: 0 <= k < |xs| ==> IsTrimmed(xs[k])
    ensures Map(xs, Trim) == xs
  {
    forall k | 0 <= k < |xs| ensures Trim(xs[k]) == xs[k] {
      TrimmedIsFixed(xs[k]);
    }
  }

  lemma TextareaOfEmpty()
    ensures TextareaEmails("") == []
  {
    assert Split("", TextareaSeparators) == [""];
    assert IsTrimmed("");
    TrimmedIsFixed("");
    assert Map([""], Trim) == [""];
  }

  /** Clean addresses joined with line feeds parse back to themselves. */
  lemma CleanRoundTrip(xs: seq<string>)
    requires forall k :: 0 <= k < |xs| ==> Clean(xs[k])
    ensures TextareaEmails(Join(xs, "\n")) == xs
  {
    if xs == [] {
      TextareaOfEmpty();
    } else {
      SplitJoin(xs, '\n', TextareaSeparators);
      MapTrimFixed(xs);
      FilterKeepsAll(xs, NonEmpty);
    }
  }

  /** The file rule's list, written into the textarea one per line, is
      what the textarea rule parses back. */
  lemma FileThenTextarea(content: string)
    ensures TextareaEmails(Join(FileEmails(content), "\n")) == FileEmails(content)
  {
    CleanRoundTrip(FileEmails(content));
  }

  /** `emailList.filter((_, i) => i !== index)`. */
  function Without(list: seq<string>, index: int): (r: seq<string>)
    ensures 0 <= index < |list| ==> |r| == |list| - 1
    ensures 0 <= index < |list| ==> forall k :: 0 <= k < |r| ==> r[k] == list[if k < index then k else k + 1]
    ensures !(0 <= index < |list|) ==> r == list
  {
    if 0 <= index < |list| then list[..index] + list[index + 1..] else list
  }

  /** The chips shown: at most the first ten, and the "+n more" note when
      there are more than ten. */
  function Preview(list: seq<string>): (r: (seq<string>, Option<string>))
    ensures |r.0| == if |list| < 10 then |list| else 10
    ensures r.0 == list[..|r.0|]
    ensures r.1.Some? <==> |list| > 10
    ensures r.1.Some? ==> r.1.value == "+" + NatToString(|list| - 10) + " more"
  {
    (list[..if |list| < 10 then |list| else 10],
     if |list| > 10 then Some("+" + NatToString(|list| - 10) + " more") else None)
  }

  /** What `emailApi.sendBulkEmails` is given. */
  datatype BulkRequest = BulkRequest(emails: seq<string>, templateId: int, subject: string, body: string)

  datatype TextField = SubjectField | BodyField

  datatype Template = Template(id: int, name: string, subject: string, body: string)

  const NoAddresses := "Please add at least one email address"
  const NoSubject := "Please enter a subject"
  const NoBody := "Please enter email body"

  /** The message a submit is refused with, if any, in the order the
      checks run. */
  function SubmitCheck(list: seq<string>, subject: string, body: string): (r: Option<string>)
    ensures r.None? <==> list != [] && Trim(subject) != [] && Trim(body) != []
    ensures list == [] ==> r == Some(NoAddresses)
    ensures list != [] && Trim(subject) == [] ==> r == Some(NoSubject)
    ensures list != [] && Trim(subject) != [] && Trim(body) == [] ==> r == Some(NoBody)
  {
    if list == [] then Some(NoAddresses)
    else if Trim(subject) == [] then Some(NoSubject)
    else if Trim(body) == [] then Some(NoBody)
    else None
  }

  class Form {
    var emails: string
    var subject: string
    var body: string
    var templateId: int
    var emailList: seq<string>

    /** The chips are what the textarea parses to, and each chip is a
        clean address. */
    ghost predicate Synced()
      reads this
    {
      && emailList == TextareaEmails(emails)
      && forall k :: 0 <= k < |emailList| ==> Clean(emailList[k])
    }

    constructor ()
      ensures Synced()
      ensures emails == "" && subject == "" && body == "" && templateId == 0 && emailList == []
    {
      emails, subject, body, templateId, emailList := "", "", "", 0, [];
      TextareaOfEmpty();
    }

    /** `handleEmailsChange`. */
    method EmailsChanged(value: string)
      modifies this
      ensures Synced()
      ensures emails == value && emailList == TextareaEmails(value)
      ensures subject == old(subject) && body == old(body) && templateId == old(templateId)
    {
      emails := value;
      emailList := TextareaEmails(value);
    }

    /** `handleFileUpload`, once the file is read: the list is the file
        rule's, and the textarea shows it one address per line. */
    method FileLoaded(content: string)
      modifies this
      ensures Synced()
      ensures emailList == FileEmails(content) && emails == Join(emailList, "\n")
      ensures forall k :: 0 <= k < |emailList| ==> HasAt(emailList[k])
      ensures subject == old(subject) && body == old(body) && templateId == old(templateId)
    {
      emailList := FileEmails(content);
      emails := Join(emailList, "\n");
      CleanRoundTrip(emailList);
    }

    /** `removeEmail`: drops position `index` (nothing when it is out of
        range) and rewrites the textarea from the list. */
    method RemoveEmail(index: int)
      requires Synced()
      modifies this
      ensures Synced()
      ensures emailList == Without(old(emailList), index) && emails == Join(emailList, "\n")
      ensures subject == old(subject) && body == old(body) && templateId == old(templateId)
    {
      emailList := Without(emailList, index);
      emails := Join(emailList, "\n");
      CleanRoundTrip(emailList);
    }

    /** `handleChange` on the subject or body input. */
    method FieldChanged(field: TextField, value: string)
      modifies this
      ensures field == SubjectField ==> subject == value && body == old(body)
      ensures field == BodyField ==> body == value && subject == old(subject)
      ensures emails == old(emails) && emailList == old(emailList) && templateId == old(templateId)
    {
      if field == SubjectField {
        subject := value;
      } else {
        body := value;
      }
    }

    /** `handleTemplateSelect`. */
    method SelectTemplate(t: Template)
      modifies this
      ensures templateId == t.id && subject == t.subject && body == t.body
      ensures emails == old(emails) && emailList == old(emailList)
    {
      templateId, subject, body := t.id, t.subject, t.body;
    }

    /** `handleSubmit`. A refused submit sends nothing and changes
        nothing. Otherwise the request carries the list and fields as
        they are; `sent` says whether the API call succeeded, and only
        then is the form reset. */
    method Submit(sent: bool) returns (refusal: Option<string>, request: Option<BulkRequest>)
      requires Synced()
      modifies this
      ensures Synced()
      ensures refusal == old(SubmitCheck(emailList, subject, body))
      ensures refusal.Some? ==> request.None?
      ensures refusal.None? ==> request == Some(old(BulkRequest(emailList, templateId, subject, body)))
      ensures refusal.None? && sent ==>
              emails == "" && subject == "" && body == "" && templateId == 0 && emailList == []
      ensures refusal.Some? || !sent ==>
              && emails == old(emails) && subject == old(subject) && body == old(body)
              && templateId == old(templateId) && emailList == old(emailList)
    {
      refusal := SubmitCheck(emailList, subject, body);
      if refusal.Some? {
        return refusal, None;
      }
      request := Some(BulkRequest(emailList, templateId, subject, body));
      if sent {
        emails, subject, body, templateId, emailList := "", "", "", 0, [];
        TextareaOfEmpty();
      }
    }
  }
}
