/** The export of one email (`processMail`): checks of the header and of the destination
    notebook, the rendering context and title, the choice of body, the note creation,
    the optional header, the tag loop and the attachment loop.

    `Export` states what the export does as a function of the service, of the log before
    it and of its inputs; `ProcessMail` performs it on a connection, step by step, and is
    proved to do exactly that. Failures of the note creation and of the header update
    end the export with an error; failures in the tag and attachment loops only add a
    warning and move on. */
module MailExport {
  import opened Wrappers
  import opened TextUtil
  import Template
  import opened MailContent
  import opened Remote

  /** The stored settings the exporter reads (an unset text setting reads as ""). */
  datatype Settings = Settings(
    token: string,                // joplinToken
    showNotifications: string,    // joplinShowNotifications
    parentFolder: Option<string>, // joplinNoteParentFolder, None when unset
    subjectTrimRegex: string,     // joplinSubjectTrimRegex
    authorTrimRegex: string,      // joplinAuthorTrimRegex
    dateFormat: string,           // joplinDateFormat
    titleTemplate: string,        // joplinNoteTitleTemplate
    headerTemplate: string,       // joplinNoteHeaderTemplate
    noteFormat: string,           // joplinNoteFormat
    exportAsTodo: bool,           // joplinExportAsTodo
    noteTags: string,             // joplinNoteTags, comma separated
    tagsFromEmail: bool,          // joplinNoteTagsFromEmail
    attachments: string)          // joplinAttachments

  /** A date of the mail client: its time in milliseconds and its `toString()`. */
  datatype Date = Date(time: int, text: string)

  /** The header of a displayed message; `fields` holds its other properties, already
      stringified, as they enter the rendering context. */
  datatype MailHeader = MailHeader(
    subject: string,
    author: string,
    date: Option<Date>,
    tags: seq<string>,
    fields: map<string, string>)

  datatype Attachment = Attachment(name: string, partName: string)

  /** An entry of the mail client's list of tags: the key a message stores, the name
      people read. */
  datatype MessageTag = MessageTag(key: string, tag: string)

  /** What the mail client supplies for one displayed message. The three last fields are
      what the regular expressions of the settings leave of the subject and the author,
      and the date in the format of the settings; they are read only when the
      corresponding setting is non-empty. */
  datatype MailInput = MailInput(
    header: Option<MailHeader>,
    selectedText: string,
    full: Mail,
    tagMapping: seq<MessageTag>,
    attachments: seq<Attachment>,
    trimmedSubject: string,
    trimmedAuthor: string,
    formattedDate: string)

  /** Something the export reports on the console and goes on. */
  datatype Warning =
    | SearchFailed(text: string)
    | CreateTagFailed(text: string)
    | TooManyTags(tag: string, titles: string)
    | AttachTagFailed(text: string)
    | CreateResourceFailed(text: string)
    | AttachResourceFailed(text: string)

  /** The requests sent so far and the warnings reported so far. */
  datatype Run = Run(log: seq<Request>, warnings: seq<Warning>)

  /** The result of one export: the error it returns (None for success), the log of
      requests after it and its warnings. */
  datatype Outcome = Outcome(error: Option<string>, log: seq<Request>, warnings: seq<Warning>)

  // ---------------------------------------------------------------------------
  // Before any request

  /** `${parentId}` for the stored notebook id. */
  function FolderText(folder: Option<string>): string
  {
    if folder.Some? then folder.value else "undefined"
  }

  predicate ValidFolder(folder: Option<string>)
  {
    folder.Some? && folder.value != ""
  }

  function Subject(s: Settings, h: MailHeader, mail: MailInput): string
  {
    if s.subjectTrimRegex == "" then h.subject else mail.trimmedSubject
  }

  function Author(s: Settings, h: MailHeader, mail: MailInput): string
  {
    if s.authorTrimRegex == "" then h.author else mail.trimmedAuthor
  }

  /** The date in the context: the client's own text for it without a format (a missing
      date reads as "undefined"). */
  function FormattedDate(s: Settings, h: MailHeader, mail: MailInput): string
  {
    if s.dateFormat != "" then mail.formattedDate
    else if h.date.Some? then h.date.value.text
    else "undefined"
  }

  /** The header's properties, with the subject, author and date as the settings shape
      them. */
  function RenderingContext(s: Settings, h: MailHeader, mail: MailInput): (ctx: Template.Context)
    ensures "subject" in ctx && ctx["subject"] == Subject(s, h, mail)
    ensures "author" in ctx && ctx["author"] == Author(s, h, mail)
    ensures "date" in ctx && ctx["date"] == FormattedDate(s, h, mail)
    ensures forall k :: k in h.fields && k != "subject" && k != "author" && k != "date" ==>
              k in ctx && ctx[k] == h.fields[k]
    ensures ctx.Keys == h.fields.Keys + {"subject", "author", "date"}
  {
    h.fields["subject" := Subject(s, h, mail)]["author" := Author(s, h, mail)]["date" := FormattedDate(s, h, mail)]
  }

  /** The note to create, or the error that ends the export before any request. */
  function Prepare(s: Settings, mail: MailInput): (r: Result<NoteData, string>)
    ensures mail.header.None? ==> r == Failure("Mail header is empty")
    ensures mail.header.Some? && !ValidFolder(s.parentFolder) ==>
              r == Failure("Invalid destination notebook: " + FolderText(s.parentFolder) + ".")
    ensures r.Failure? <==>
              || mail.header.None?
              || !ValidFolder(s.parentFolder)
              || SelectBody(mail.selectedText, mail.full, s.noteFormat).Failure?
    ensures mail.header.Some? && ValidFolder(s.parentFolder) && r.Failure? ==> r.error == "Mail body is empty"
    ensures r.Success? ==>
              var h := mail.header.value;
              var b := SelectBody(mail.selectedText, mail.full, s.noteFormat).value;
              && r.value.title == Template.Render(s.titleTemplate, RenderingContext(s, h, mail))
              && r.value.parentId == s.parentFolder.value
              && r.value.isTodo == (if s.exportAsTodo then 1 else 0)
              && r.value.author == h.author
              && r.value.userCreatedTime == (if h.date.Some? then h.date.value.time else 0)
              && r.value.body == b.body && r.value.bodyHtml == b.bodyHtml
  {
    if mail.header.None? then Failure("Mail header is empty")
    else if !ValidFolder(s.parentFolder) then
      Failure("Invalid destination notebook: " + FolderText(s.parentFolder) + ".")
    else
      var h := mail.header.value;
      var title := Template.Render(s.titleTemplate, RenderingContext(s, h, mail));
      match SelectBody(mail.selectedText, mail.full, s.noteFormat)
      case Failure(e) => Failure(e)
      case Success(b) =>
        Success(NoteData(title, s.parentFolder.value, if s.exportAsTodo then 1 else 0, h.author,
                         if h.date.Some? then h.date.value.time else 0, b.body, b.bodyHtml))
  }

  // ---------------------------------------------------------------------------
  // Tags

  /** The name the mail client's list gives to a tag key (the first entry with it). */
  function FindTag(mapping: seq<MessageTag>, key: string): Option<string>
  {
    if mapping == [] then None
    else if mapping[0].key == key then Some(mapping[0].tag)
    else FindTag(mapping[1..], key)
  }

  predicate AllKnown(keys: seq<string>, mapping: seq<MessageTag>)
  {
    forall i :: 0 <= i < |keys| ==> FindTag(mapping, keys[i]).Some?
  }

  /** The names of the email's tags, in order. */
  function MailTags(keys: seq<string>, mapping: seq<MessageTag>): (r: seq<string>)
    requires AllKnown(keys, mapping)
    ensures |r| == |keys|
    ensures forall i :: 0 <= i < |keys| ==> Some(r[i]) == FindTag(mapping, keys[i])
  {
    if keys == [] then [] else [FindTag(mapping, keys[0]).value] + MailTags(keys[1..], mapping)
  }

  /** Every tag key of the email has a name, whenever the email's tags are exported. */
  predicate TagsKnown(s: Settings, mail: MailInput)
  {
    s.tagsFromEmail && mail.header.Some? ==> AllKnown(mail.header.value.tags, mail.tagMapping)
  }

  /** The tags to put on the note, untrimmed: the pieces of the stored list, then the
      names of the email's tags when those are exported. */
  function TagCandidates(s: Settings, h: MailHeader, mapping: seq<MessageTag>): seq<string>
    requires s.tagsFromEmail ==> AllKnown(h.tags, mapping)
  {
    (if s.noteTags != "" then Split(s.noteTags, ',') else [])
    + (if s.tagsFromEmail then MailTags(h.tags, mapping) else [])
  }

  /** The titles of the matching tags, as the warning lists them. */
  function Titles(items: seq<TagItem>): (r: seq<string>)
    ensures |r| == |items| && forall i :: 0 <= i < |items| ==> r[i] == items[i].title
  {
    if items == [] then [] else [items[0].title] + Titles(items[1..])
  }

  /** Attaches the tag `tagId` to the note. */
  function AttachTagStep(respond: Service, run: Run, tagId: string, noteId: string): Run
  {
    var log := run.log + [AttachTag(tagId, noteId)];
    var reply := respond(log);
    if reply.Fail? then Run(log, run.warnings + [AttachTagFailed(reply.text)]) else Run(log, run.warnings)
  }

  /** One turn of the tag loop: search the trimmed name; create the tag when nothing
      matches and attach it, attach the one match, or warn about several. */
  function TagStep(respond: Service, run: Run, tag: string, noteId: string): Run
  {
    var name := Trim(tag);
    var log := run.log + [SearchTag(name)];
    var found := respond(log);
    if found.Fail? then Run(log, run.warnings + [SearchFailed(found.text)])
    else if |found.items| == 0 then
      var log' := log + [CreateTag(name)];
      var created := respond(log');
      if created.Fail? then Run(log', run.warnings + [CreateTagFailed(created.text)])
      else AttachTagStep(respond, Run(log', run.warnings), created.id, noteId)
    else if |found.items| == 1 then AttachTagStep(respond, Run(log, run.warnings), found.items[0].id, noteId)
    else Run(log, run.warnings + [TooManyTags(name, Join(Titles(found.items), ", "))])
  }

  /** The tag loop over `tags`, in order. */
  function TagLoop(respond: Service, run: Run, tags: seq<string>, noteId: string): Run
  {
    if tags == [] then run
    else TagStep(respond, TagLoop(respond, run, tags[..|tags| - 1], noteId), tags[|tags| - 1], noteId)
  }

  // ---------------------------------------------------------------------------
  // Attachments

  const AttachmentsHeading := "\n\n**Attachments**: "

  /** The Markdown link to an uploaded attachment. */
  function AttachmentLink(name: string, resourceId: string): string
  {
    "\n[" + name + "](:/" + resourceId + ")"
  }

  /** The attachment loop over `attachments`: each is uploaded; each upload that
      succeeds adds its link to the summary. */
  function AttachmentLoop(respond: Service, run: Run, attachments: seq<Attachment>): (Run, string)
  {
    if attachments == [] then (run, AttachmentsHeading)
    else
      var (before, summary) := AttachmentLoop(respond, run, attachments[..|attachments| - 1]);
      var a := attachments[|attachments| - 1];
      var log := before.log + [CreateResource(a.name, a.partName)];
      var reply := respond(log);
      if reply.Fail? then (Run(log, before.warnings + [CreateResourceFailed(reply.text)]), summary)
      else (Run(log, before.warnings), summary + AttachmentLink(a.name, reply.id))
  }

  /** Uploads the attachments and appends the summary to the note's body; nothing when
      there are none. */
  function AttachStage(respond: Service, run: Run, attachments: seq<Attachment>, noteId: string, noteBody: string): Run
  {
    if attachments == [] then run
    else
      var (uploaded, summary) := AttachmentLoop(respond, run, attachments);
      var log := uploaded.log + [UpdateNote(noteId, noteBody + summary)];
      var reply := respond(log);
      if reply.Fail? then Run(log, uploaded.warnings + [AttachResourceFailed(reply.text)])
      else Run(log, uploaded.warnings)
  }

  // ---------------------------------------------------------------------------
  // The whole export

  /** The optional header: without a template, nothing is sent and the note's reply is
      kept; otherwise the rendered header is put before the note's body. */
  function HeaderStep(respond: Service, log: seq<Request>, template: string, ctx: Template.Context, note: Reply)
    : (seq<Request>, Reply)
    requires note.Ok?
  {
    if template == "" then (log, note)
    else
      var log' := log + [UpdateNote(note.id, Template.Render(template, ctx) + note.body)];
      (log', respond(log'))
  }

  /** What exporting `mail` does, given the service and the requests sent before. */
  function Export(respond: Service, log0: seq<Request>, s: Settings, mail: MailInput): Outcome
    requires TagsKnown(s, mail)
  {
    match Prepare(s, mail)
    case Failure(e) => Outcome(Some(e), log0, [])
    case Success(note) =>
      var log1 := log0 + [CreateNote(note)];
      var created := respond(log1);
      if created.Fail? then Outcome(Some("Failed to create note: " + created.text), log1, [])
      else AfterCreate(respond, log1, s, mail.header.value, mail, created)
  }

  /** The export once the note exists: the header, the tags and the attachments. */
  function AfterCreate(respond: Service, log1: seq<Request>, s: Settings, h: MailHeader, mail: MailInput, created: Reply)
    : Outcome
    requires created.Ok? && (s.tagsFromEmail ==> AllKnown(h.tags, mail.tagMapping))
  {
    var (log2, info) := HeaderStep(respond, log1, s.headerTemplate, RenderingContext(s, h, mail), created);
    if info.Fail? then Outcome(Some("Failed to add header info to note: " + info.text), log2, [])
    else AfterHeader(respond, log2, s, h, mail, info)
  }

  /** The tags and the attachments, which only warn. */
  function AfterHeader(respond: Service, log2: seq<Request>, s: Settings, h: MailHeader, mail: MailInput, info: Reply)
    : Outcome
    requires info.Ok? && (s.tagsFromEmail ==> AllKnown(h.tags, mail.tagMapping))
  {
    var tagged := TagLoop(respond, Run(log2, []), TagCandidates(s, h, mail.tagMapping), info.id);
    if s.attachments == "ignore" then Outcome(None, tagged.log, tagged.warnings)
    else
      var done := AttachStage(respond, tagged, mail.attachments, info.id, info.body);
      Outcome(None, done.log, done.warnings)
  }

  // ---------------------------------------------------------------------------
  // The export, performed

  lemma TagLoopSnoc(respond: Service, run: Run, tags: seq<string>, noteId: string, i: nat)
    requires i < |tags|
    ensures TagLoop(respond, run, tags[..i + 1], noteId)
            == TagStep(respond, TagLoop(respond, run, tags[..i], noteId), tags[i], noteId)
  {
    assert tags[..i + 1][..i] == tags[..i];
  }

  lemma AttachmentLoopSnoc(respond: Service, run: Run, attachments: seq<Attachment>, i: nat)
    requires i < |attachments|
    ensures var (before, summary) := AttachmentLoop(respond, run, attachments[..i]);
            var a := attachments[i];
            var log := before.log + [CreateResource(a.name, a.partName)];
            var reply := respond(log);
            AttachmentLoop(respond, run, attachments[..i + 1])
            == if reply.Fail? then (Run(log, before.warnings + [CreateResourceFailed(reply.text)]), summary)
               else (Run(log, before.warnings), summary + AttachmentLink(a.name, reply.id))
  {
    assert attachments[..i + 1][..i] == attachments[..i];
  }

  /** The body of the note (`body` and `body_html`), read from the selection or from the
      full message. */
  method ChooseBodies(mail: MailInput, format: string) returns (r: Result<Bodies, string>)
    ensures r == SelectBody(mail.selectedText, mail.full, format)
  {
    var body: Option<string> := None;
    var bodyHtml: Option<string> := None;
    if OnlyWhitespace(mail.selectedText) {
      var mailBodyHtml := GetMailContent(mail.full, Html, "");
      var mailBodyPlain := GetMailContent(mail.full, Plain, "");
      assert mailBodyHtml == ContentOf(mail.full, Html) && mailBodyPlain == ContentOf(mail.full, Plain);
      if mailBodyHtml == "" && mailBodyPlain == "" {
        return Failure("Mail body is empty");
      }
      if (format == Html && mailBodyHtml != "") || mailBodyPlain == "" {
        bodyHtml := Some(mailBodyHtml);
      }
      if (format == Plain && mailBodyPlain != "") || mailBodyHtml == "" {
        body := Some(mailBodyPlain);
      }
    } else {
      body := Some(mail.selectedText);
    }
    return Success(Bodies(body, bodyHtml));
  }

  /** The tag loop: tags the note `noteId` with each of `tags`. */
  method TagNote(api: RemoteApi, tags: seq<string>, noteId: string, warnings0: seq<Warning>)
    returns (warnings: seq<Warning>)
    modifies api
    ensures Run(api.log, warnings) == TagLoop(api.respond, Run(old(api.log), warnings0), tags, noteId)
  {
    warnings := warnings0;
    ghost var start := Run(api.log, warnings0);
    for i := 0 to |tags|
      invariant Run(api.log, warnings) == TagLoop(api.respond, start, tags[..i], noteId)
    {
      TagLoopSnoc(api.respond, start, tags, noteId, i);
      var strippedTag := Trim(tags[i]);
      var response := api.Send(SearchTag(strippedTag));
      if response.Fail? {
        warnings := warnings + [SearchFailed(response.text)];
        continue;
      }
      var matchingTags := response.items;
      var tagId;
      if |matchingTags| == 0 {
        response := api.Send(CreateTag(strippedTag));
        if response.Fail? {
          warnings := warnings + [CreateTagFailed(response.text)];
          continue;
        }
        tagId := response.id;
      } else if |matchingTags| == 1 {
        tagId := matchingTags[0].id;
      } else {
        warnings := warnings + [TooManyTags(strippedTag, Join(Titles(matchingTags), ", "))];
        continue;
      }
      response := api.Send(AttachTag(tagId, noteId));
      if response.Fail? {
        warnings := warnings + [AttachTagFailed(response.text)];
        continue;
      }
    }
    assert tags[..|tags|] == tags;
  }

  /** The attachment loop and the update of the note's body with the summary. */
  method AttachFiles(api: RemoteApi, attachments: seq<Attachment>, noteId: string, noteBody: string,
                     warnings0: seq<Warning>)
    returns (warnings: seq<Warning>)
    modifies api
    ensures Run(api.log, warnings) == AttachStage(api.respond, Run(old(api.log), warnings0), attachments, noteId, noteBody)
  {
    warnings := warnings0;
    if |attachments| != 0 {
      var attachmentString := AttachmentsHeading;
      ghost var start := Run(api.log, warnings0);
      for j := 0 to |attachments|
        invariant (Run(api.log, warnings), attachmentString) == AttachmentLoop(api.respond, start, attachments[..j])
      {
        AttachmentLoopSnoc(api.respond, start, attachments, j);
        var attachment := attachments[j];
        var response := api.Send(CreateResource(attachment.name, attachment.partName));
        if response.Fail? {
          warnings := warnings + [CreateResourceFailed(response.text)];
          continue;
        }
        attachmentString := attachmentString + AttachmentLink(attachment.name, response.id);
      }
      assert attachments[..|attachments|] == attachments;
      var response := api.Send(UpdateNote(noteId, noteBody + attachmentString));
      if response.Fail? {
        warnings := warnings + [AttachResourceFailed(response.text)];
      }
    }
  }

  /** `processMail`: exports one email over the connection `api` and returns the error
      that ended it (None for success) and the warnings it reported. */
  method ProcessMail(api: RemoteApi, s: Settings, mail: MailInput) returns (error: Option<string>, warnings: seq<Warning>)
    requires TagsKnown(s, mail)
    modifies api
    ensures Outcome(error, api.log, warnings) == Export(api.respond, old(api.log), s, mail)
  {
    if mail.header.None? {
      return Some("Mail header is empty"), [];
    }
    var mailHeader := mail.header.value;
    var parentId := s.parentFolder;
    if parentId.None? || parentId.value == "" {
      return Some("Invalid destination notebook: " + FolderText(parentId) + "."), [];
    }

    var trimmedSubject := if s.subjectTrimRegex == "" then mailHeader.subject else mail.trimmedSubject;
    var trimmedAuthor := if s.authorTrimRegex == "" then mailHeader.author else mail.trimmedAuthor;
    var formattedDate := if s.dateFormat == "" then (if mailHeader.date.Some? then mailHeader.date.value.text else "undefined")
                         else mail.formattedDate;
    var renderingContext := mailHeader.fields["subject" := trimmedSubject]["author" := trimmedAuthor]["date" := formattedDate];
    assert renderingContext == RenderingContext(s, mailHeader, mail);
    var titleRendered := Template.RenderString(s.titleTemplate, renderingContext);

    var bodies := ChooseBodies(mail, s.noteFormat);
    if bodies.Failure? {
      return Some(bodies.error), [];
    }
    var data := NoteData(titleRendered, parentId.value, if s.exportAsTodo then 1 else 0, mailHeader.author,
                         if mailHeader.date.Some? then mailHeader.date.value.time else 0,
                         bodies.value.body, bodies.value.bodyHtml);
    assert Prepare(s, mail) == Success(data);

    var response := api.Send(CreateNote(data));
    if response.Fail? {
      return Some("Failed to create note: " + response.text), [];
    }
    error, warnings := CompleteNote(api, s, mailHeader, mail, renderingContext, response);
  }

  /** The part of `processMail` after the note exists: the optional header, the tags and
      the attachments. */
  method CompleteNote(api: RemoteApi, s: Settings, mailHeader: MailHeader, mail: MailInput,
                      renderingContext: Template.Context, noteInfo: Reply)
    returns (error: Option<string>, warnings: seq<Warning>)
    requires noteInfo.Ok? && (s.tagsFromEmail ==> AllKnown(mailHeader.tags, mail.tagMapping))
    requires renderingContext == RenderingContext(s, mailHeader, mail)
    modifies api
    ensures Outcome(error, api.log, warnings) == AfterCreate(api.respond, old(api.log), s, mailHeader, mail, noteInfo)
  {
    var info := noteInfo;
    if s.headerTemplate != "" {
      var headerInfo := Template.RenderString(s.headerTemplate, renderingContext);
      var response := api.Send(UpdateNote(info.id, headerInfo + info.body));
      if response.Fail? {
        return Some("Failed to add header info to note: " + response.text), [];
      }
      info := response;
    }
    assert (api.log, info) == HeaderStep(api.respond, old(api.log), s.headerTemplate, renderingContext, noteInfo);

    var tags := if s.noteTags != "" then Split(s.noteTags, ',') else [];
    if s.tagsFromEmail {
      tags := tags + MailTags(mailHeader.tags, mail.tagMapping);
    }
    assert tags == TagCandidates(s, mailHeader, mail.tagMapping);
    warnings := TagNote(api, tags, info.id, []);

    if s.attachments == "ignore" {
      return None, warnings;
    }
    warnings := AttachFiles(api, mail.attachments, info.id, info.body, warnings);
    return None, warnings;
  }
}
