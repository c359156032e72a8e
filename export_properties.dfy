/** What the export of one email promises: where it stops with an error and which
    requests it has sent by then, which requests the tag loop and the attachment loop
    send, and how many requests a whole export takes against services that accept
    everything (the request counts of the exporter's own tests). */
module ExportProperties {
  import opened Wrappers
  import opened TextUtil
  import opened MailContent
  import opened Remote
  import opened MailExport

  /** `log` is `log0` followed by more requests. */
  predicate Extends<T(==)>(log: seq<T>, log0: seq<T>)
  {
    |log0| <= |log| && log[..|log0|] == log0
  }

  lemma ExtendsTrans<T>(a: seq<T>, b: seq<T>, c: seq<T>)
    requires Extends(b, a) && Extends(c, b)
    ensures Extends(c, a) && c[|a|..] == b[|a|..] + c[|b|..]
  {
    assert c[..|a|] == c[..|b|][..|a|];
  }

  predicate IsTagRequest(r: Request)
  {
    r.SearchTag? || r.CreateTag? || r.AttachTag?
  }

  /** A name as `trim` leaves it: the tag service strips names, so only such names keep
      the note's tags and the service's tags the same. */
  predicate Trimmed(name: string)
  {
    Trim(name) == name
  }

  /** What the tag loop may send: tag requests only, and every name it searches or
      creates trimmed. */
  predicate TagTraffic(reqs: seq<Request>)
  {
    forall i :: 0 <= i < |reqs| ==>
      && IsTagRequest(reqs[i])
      && (reqs[i].SearchTag? ==> Trimmed(reqs[i].query))
      && (reqs[i].CreateTag? ==> Trimmed(reqs[i].title))
  }

  lemma TagTrafficConcat(a: seq<Request>, b: seq<Request>)
    requires TagTraffic(a) && TagTraffic(b)
    ensures TagTraffic(a + b)
  {
    forall i | 0 <= i < |a + b|
      ensures IsTagRequest((a + b)[i])
    {
      if i >= |a| {
        assert (a + b)[i] == b[i - |a|];
      }
    }
  }

  // ---------------------------------------------------------------------------
  // The tag loop

  /** `base + extra` extends `base` by `extra`. */
  lemma Appended(base: seq<Request>, extra: seq<Request>)
    ensures Extends(base + extra, base) && (base + extra)[|base|..] == extra
  {
    assert (base + extra)[..|base|] == base;
  }

  /** The warning for a tag request whose reply failed with `text`. */
  function TagFailure(req: Request, text: string): Warning
  {
    if req.SearchTag? then SearchFailed(text)
    else if req.CreateTag? then CreateTagFailed(text)
    else AttachTagFailed(text)
  }

  /** The requests of one turn of the tag loop, for the trimmed name: it searches the
      name; for no match it creates the name and attaches the created tag, for one match
      it attaches that tag, and for several it stops. A failed search or creation ends
      the turn at once. */
  lemma TagStepTraffic(respond: Service, run: Run, tag: string, noteId: string) returns (extra: seq<Request>)
    ensures var r := TagStep(respond, run, tag, noteId);
            var name := Trim(tag);
            var found := respond(run.log + [SearchTag(name)]);
            && r.log == run.log + extra
            && 1 <= |extra| <= 3 && extra[0] == SearchTag(name) && TagTraffic(extra)
            && (found.Fail? || |found.items| > 1 ==> extra == [SearchTag(name)])
            && (found.Ok? && |found.items| == 1 ==> extra == [SearchTag(name), AttachTag(found.items[0].id, noteId)])
            && (found.Ok? && |found.items| == 0 ==>
                  var created := respond(run.log + [SearchTag(name), CreateTag(name)]);
                  extra == [SearchTag(name), CreateTag(name)] + (if created.Ok? then [AttachTag(created.id, noteId)] else []))
  {
    var name := Trim(tag);
    TrimIdempotent(tag);
    var found := respond(run.log + [SearchTag(name)]);
    if found.Fail? || |found.items| > 1 {
      extra := [SearchTag(name)];
      TagStepStops(respond, run, tag, noteId);
    } else if |found.items| == 1 {
      extra := [SearchTag(name), AttachTag(found.items[0].id, noteId)];
      TagStepAttaches(respond, run, tag, noteId);
      assert run.log + extra[..1] == run.log + [SearchTag(name)];
    } else {
      var created := respond(run.log + [SearchTag(name), CreateTag(name)]);
      extra := [SearchTag(name), CreateTag(name)] + (if created.Ok? then [AttachTag(created.id, noteId)] else []);
      TagStepCreates(respond, run, tag, noteId);
      assert run.log + extra[..1] == run.log + [SearchTag(name)];
      assert |extra| == 3 ==> run.log + extra[..2] == run.log + [SearchTag(name), CreateTag(name)];
    }
  }

  /** A failed search or several matches end the turn after the search. */
  lemma TagStepStops(respond: Service, run: Run, tag: string, noteId: string)
    requires var found := respond(run.log + [SearchTag(Trim(tag))]); found.Fail? || |found.items| > 1
    ensures TagStep(respond, run, tag, noteId).log == run.log + [SearchTag(Trim(tag))]
  {
  }

  /** The one match is attached. */
  lemma TagStepAttaches(respond: Service, run: Run, tag: string, noteId: string)
    requires var found := respond(run.log + [SearchTag(Trim(tag))]); found.Ok? && |found.items| == 1
    ensures var found := respond(run.log + [SearchTag(Trim(tag))]);
            TagStep(respond, run, tag, noteId).log
            == run.log + [SearchTag(Trim(tag)), AttachTag(found.items[0].id, noteId)]
  {
  }

  /** Without a match the name is created, and the created tag attached. */
  lemma TagStepCreates(respond: Service, run: Run, tag: string, noteId: string)
    requires var found := respond(run.log + [SearchTag(Trim(tag))]); found.Ok? && |found.items| == 0
    ensures var name := Trim(tag);
            var created := respond(run.log + [SearchTag(name), CreateTag(name)]);
            TagStep(respond, run, tag, noteId).log
            == run.log + [SearchTag(name), CreateTag(name)] + (if created.Ok? then [AttachTag(created.id, noteId)] else [])
  {
    var name := Trim(tag);
    assert run.log + [SearchTag(name)] + [CreateTag(name)] == run.log + [SearchTag(name), CreateTag(name)];
  }

  /** The warnings of one turn of the tag loop: it adds one warning exactly when it
      stopped short, saying why: the several matches with their titles, or the failure
      of its last request. */
  lemma TagStepWarnings(respond: Service, run: Run, tag: string, noteId: string)
    ensures var r := TagStep(respond, run, tag, noteId);
            var found := respond(run.log + [SearchTag(Trim(tag))]);
            && |r.log| > |run.log|
            && r.warnings == run.warnings
                             + (if found.Ok? && |found.items| > 1 then [TooManyTags(Trim(tag), Join(Titles(found.items), ", "))]
                                else if respond(r.log).Fail? then [TagFailure(r.log[|r.log| - 1], respond(r.log).text)]
                                else [])
  {
    var name := Trim(tag);
    var log := run.log + [SearchTag(name)];
    var found := respond(log);
    var r := TagStep(respond, run, tag, noteId);
    if found.Fail? || |found.items| > 1 {
      assert r.log == log;
    } else if |found.items| == 1 {
      assert r == AttachTagStep(respond, Run(log, run.warnings), found.items[0].id, noteId);
    } else {
      var log' := log + [CreateTag(name)];
      if respond(log').Fail? {
        assert r.log == log';
      } else {
        assert r == AttachTagStep(respond, Run(log', run.warnings), respond(log').id, noteId);
      }
    }
  }

  /** The tag loop sends between one and three requests per tag, all of them tag
      requests with trimmed names, and only adds warnings. */
  lemma {:induction false} TagLoopTraffic(respond: Service, run: Run, tags: seq<string>, noteId: string)
    ensures var r := TagLoop(respond, run, tags, noteId);
            && Extends(r.log, run.log) && |tags| <= |r.log| - |run.log| <= 3 * |tags|
            && TagTraffic(r.log[|run.log|..])
            && Extends(r.warnings, run.warnings)
  {
    if tags == [] {
      assert run.log[|run.log|..] == [];
    } else {
      var init := tags[..|tags| - 1];
      var mid := TagLoop(respond, run, init, noteId);
      TagLoopTraffic(respond, run, init, noteId);
      var r := TagLoop(respond, run, tags, noteId);
      assert && Extends(r.log, mid.log) && 1 <= |r.log| - |mid.log| <= 3 && TagTraffic(r.log[|mid.log|..])
             && Extends(r.warnings, mid.warnings) by {
        var extra := TagStepTraffic(respond, mid, tags[|tags| - 1], noteId);
        Appended(mid.log, extra);
        TagStepWarnings(respond, mid, tags[|tags| - 1], noteId);
        assert r.warnings[..|mid.warnings|] == mid.warnings;
      }
      ExtendsTrans(run.log, mid.log, r.log);
      ExtendsTrans(run.warnings, mid.warnings, r.warnings);
      TagTrafficConcat(mid.log[|run.log|..], r.log[|mid.log|..]);
    }
  }

  /** A service that accepts every request and answers every tag search with `n`
      matches. */
  ghost predicate AnswersSearches(respond: Service, n: nat)
  {
    forall log: seq<Request> :: log != [] ==>
      respond(log).Ok? && (log[|log| - 1].SearchTag? ==> |respond(log).items| == n)
  }

  /** Requests per tag: search, create and attach when nothing matches; search and
      attach for one match; only the search when several match. */
  function RequestsPerTag(n: nat): nat
  {
    if n == 0 then 3 else if n == 1 then 2 else 1
  }

  /** Against such a service one tag is searched and then created and attached (no
      match), attached to the one match, or only warned about with the titles of all
      matches (several); nothing else warns. */
  lemma TagStepAnswered(respond: Service, run: Run, tag: string, noteId: string, n: nat)
    requires AnswersSearches(respond, n)
    ensures var r := TagStep(respond, run, tag, noteId);
            var name := Trim(tag);
            var found := respond(run.log + [SearchTag(name)]);
            && |r.log| == |run.log| + RequestsPerTag(n)
            && (n == 0 ==> r.log == run.log + [SearchTag(name), CreateTag(name),
                                                AttachTag(respond(run.log + [SearchTag(name), CreateTag(name)]).id, noteId)])
            && (n == 1 ==> r.log == run.log + [SearchTag(name), AttachTag(found.items[0].id, noteId)])
            && (n > 1 ==> r.log == run.log + [SearchTag(name)])
            && r.warnings == run.warnings + (if n > 1 then [TooManyTags(name, Join(Titles(found.items), ", "))] else [])
  {
    var log := run.log + [SearchTag(Trim(tag))];
    assert |respond(log).items| == n;
    var extra := TagStepTraffic(respond, run, tag, noteId);
    TagStepWarnings(respond, run, tag, noteId);
    assert respond(run.log + extra).Ok?;
  }

  /** Against such a service every tag costs `RequestsPerTag(n)` requests, and only
      several matches warn: once per tag. */
  lemma {:induction false} TagLoopAnswered(respond: Service, run: Run, tags: seq<string>, noteId: string, n: nat)
    requires AnswersSearches(respond, n)
    ensures var r := TagLoop(respond, run, tags, noteId);
            && |r.log| == |run.log| + RequestsPerTag(n) * |tags|
            && |r.warnings| == |run.warnings| + (if n > 1 then |tags| else 0)
  {
    if tags != [] {
      var init := tags[..|tags| - 1];
      TagLoopAnswered(respond, run, init, noteId, n);
      TagStepAnswered(respond, TagLoop(respond, run, init, noteId), tags[|tags| - 1], noteId, n);
      var k := RequestsPerTag(n);
      assert k * |tags| == k * |init| + k;
    }
  }

  /** A stored tag list without a comma is one tag. */
  lemma SingleStoredTag(s: Settings, h: MailHeader, mapping: seq<MessageTag>)
    requires s.noteTags != "" && ',' !in s.noteTags && !s.tagsFromEmail
    ensures TagCandidates(s, h, mapping) == [s.noteTags]
  {
  }

  /** The candidates are the pieces of the stored list, then one name per tag of the
      email when those are exported. */
  lemma TagCandidatesCount(s: Settings, h: MailHeader, mapping: seq<MessageTag>)
    requires s.tagsFromEmail ==> AllKnown(h.tags, mapping)
    ensures |TagCandidates(s, h, mapping)|
            == (if s.noteTags != "" then |Split(s.noteTags, ',')| else 0) + (if s.tagsFromEmail then |h.tags| else 0)
    ensures Join(TagCandidates(s, h, mapping)[..if s.noteTags != "" then |Split(s.noteTags, ',')| else 0], [','])
            == s.noteTags
  {
    var stored := if s.noteTags != "" then Split(s.noteTags, ',') else [];
    assert TagCandidates(s, h, mapping)[..|stored|] == stored;
  }

  // ---------------------------------------------------------------------------
  // The attachment loop

  /** One upload request per attachment, in order. */
  function Uploads(attachments: seq<Attachment>): seq<Request>
  {
    seq(|attachments|, i requires 0 <= i < |attachments| => CreateResource(attachments[i].name, attachments[i].partName))
  }

  /** The attachment loop uploads every attachment, in order, whatever the service
      answers, and only adds warnings. */
  lemma {:induction false} AttachmentLoopUploads(respond: Service, run: Run, attachments: seq<Attachment>)
    ensures AttachmentLoop(respond, run, attachments).0.log == run.log + Uploads(attachments)
    ensures Extends(AttachmentLoop(respond, run, attachments).0.warnings, run.warnings)
  {
    if attachments == [] {
      assert run.log + Uploads(attachments) == run.log;
    } else {
      var init := attachments[..|attachments| - 1];
      var a := attachments[|attachments| - 1];
      AttachmentLoopUploads(respond, run, init);
      assert Uploads(attachments) == Uploads(init) + [CreateResource(a.name, a.partName)];
      var before := AttachmentLoop(respond, run, init).0;
      var after := AttachmentLoop(respond, run, attachments).0;
      ExtendsTrans(run.warnings, before.warnings, after.warnings);
    }
  }

  /** The links of the uploads of `attachments` sent after `base`: one per upload whose
      reply succeeded, naming the attachment and the created resource, in order. */
  function Links(respond: Service, base: seq<Request>, attachments: seq<Attachment>): string
  {
    if attachments == [] then ""
    else
      var reply := respond(base + Uploads(attachments));
      Links(respond, base, attachments[..|attachments| - 1])
        + (if reply.Ok? then AttachmentLink(attachments[|attachments| - 1].name, reply.id) else "")
  }

  /** The warnings of those uploads: one per failed reply, in order. */
  function UploadFailures(respond: Service, base: seq<Request>, attachments: seq<Attachment>): seq<Warning>
  {
    if attachments == [] then []
    else
      var reply := respond(base + Uploads(attachments));
      UploadFailures(respond, base, attachments[..|attachments| - 1])
        + (if reply.Fail? then [CreateResourceFailed(reply.text)] else [])
  }

  /** The summary is the heading followed by the links of the successful uploads, and
      every failed upload adds its own warning. */
  lemma {:induction false} AttachmentLoopContents(respond: Service, run: Run, attachments: seq<Attachment>)
    ensures AttachmentLoop(respond, run, attachments).1 == AttachmentsHeading + Links(respond, run.log, attachments)
    ensures AttachmentLoop(respond, run, attachments).0.warnings
            == run.warnings + UploadFailures(respond, run.log, attachments)
  {
    if attachments != [] {
      var init := attachments[..|attachments| - 1];
      var a := attachments[|attachments| - 1];
      AttachmentLoopContents(respond, run, init);
      AttachmentLoopUploads(respond, run, init);
      assert Uploads(attachments) == Uploads(init) + [CreateResource(a.name, a.partName)];
      assert AttachmentLoop(respond, run, init).0.log + [CreateResource(a.name, a.partName)]
             == run.log + Uploads(attachments);
    }
  }

  /** With attachments, the export uploads each of them and then sends one update of the
      note's body: its body, the heading and the links of the successful uploads. Every
      failed upload warns, and so does a failed update; without attachments, it sends
      nothing. */
  lemma AttachStageRequests(respond: Service, run: Run, attachments: seq<Attachment>, noteId: string, noteBody: string)
    ensures var r := AttachStage(respond, run, attachments, noteId, noteBody);
            && (attachments == [] ==> r == run)
            && (attachments != [] ==>
                  && r.log == run.log + Uploads(attachments)
                              + [UpdateNote(noteId, noteBody + AttachmentsHeading + Links(respond, run.log, attachments))]
                  && r.warnings == run.warnings + UploadFailures(respond, run.log, attachments)
                                   + (if respond(r.log).Fail? then [AttachResourceFailed(respond(r.log).text)] else []))
            && Extends(r.warnings, run.warnings)
  {
    if attachments != [] {
      AttachmentLoopUploads(respond, run, attachments);
      AttachmentLoopContents(respond, run, attachments);
      var uploaded := AttachmentLoop(respond, run, attachments).0;
      var r := AttachStage(respond, run, attachments, noteId, noteBody);
      assert noteBody + AttachmentLoop(respond, run, attachments).1
             == noteBody + AttachmentsHeading + Links(respond, run.log, attachments);
      assert Extends(r.warnings, uploaded.warnings);
      ExtendsTrans(run.warnings, uploaded.warnings, r.warnings);
    }
  }

  // ---------------------------------------------------------------------------
  // The whole export

  /** The header step sends at most the one update, and only with a template. */
  lemma HeaderStepRequests(respond: Service, log: seq<Request>, template: string, ctx: Template.Context, note: Reply)
    requires note.Ok?
    ensures var (log', _) := HeaderStep(respond, log, template, ctx, note);
            && Extends(log', log)
            && |log'| == |log| + (if template == "" then 0 else 1)
            && (template != "" ==> log'[|log|] == UpdateNote(note.id, Template.Render(template, ctx) + note.body))
  {
  }

  /** No upload among `reqs`. */
  predicate NoUploads(reqs: seq<Request>)
  {
    forall i :: 0 <= i < |reqs| ==> !reqs[i].CreateResource?
  }

  /** Two stretches without uploads make one. */
  lemma NoUploadsJoin(log0: seq<Request>, log1: seq<Request>, log: seq<Request>)
    requires Extends(log1, log0) && Extends(log, log1)
    requires NoUploads(log1[|log0|..]) && NoUploads(log[|log1|..])
    ensures Extends(log, log0) && NoUploads(log[|log0|..])
  {
    ExtendsTrans(log0, log1, log);
    var a: seq<Request>, b: seq<Request> := log1[|log0|..], log[|log1|..];
    forall i | 0 <= i < |a + b|
      ensures !(a + b)[i].CreateResource?
    {
      if i >= |a| {
        assert (a + b)[i] == b[i - |a|];
      }
    }
  }

  /** After the header, the export succeeds, only appends requests, and uploads nothing
      when attachments are ignored. */
  lemma AfterHeaderTraffic(respond: Service, log2: seq<Request>, s: Settings, h: MailHeader, mail: MailInput, info: Reply)
    requires info.Ok? && (s.tagsFromEmail ==> AllKnown(h.tags, mail.tagMapping))
    ensures var r := AfterHeader(respond, log2, s, h, mail, info);
            && r.error.None? && Extends(r.log, log2)
            && (s.attachments == "ignore" ==> NoUploads(r.log[|log2|..]))
  {
    var tags := TagCandidates(s, h, mail.tagMapping);
    var tagged := TagLoop(respond, Run(log2, []), tags, info.id);
    TagLoopTraffic(respond, Run(log2, []), tags, info.id);
    if s.attachments != "ignore" {
      AttachStageRequests(respond, tagged, mail.attachments, info.id, info.body);
      var done := AttachStage(respond, tagged, mail.attachments, info.id, info.body);
      ExtendsTrans(log2, tagged.log, done.log);
    }
  }

  /** Against a service that accepts everything, every upload succeeds and the loop
      warns about nothing. */
  lemma {:induction false} AttachmentLoopAnswered(respond: Service, run: Run, attachments: seq<Attachment>, n: nat)
    requires AnswersSearches(respond, n)
    ensures AttachmentLoop(respond, run, attachments).0.warnings == run.warnings
  {
    if attachments != [] {
      var init := attachments[..|attachments| - 1];
      AttachmentLoopAnswered(respond, run, init, n);
      var before := AttachmentLoop(respond, run, init).0;
      var a := attachments[|attachments| - 1];
      assert respond(before.log + [CreateResource(a.name, a.partName)]).Ok?;
    }
  }

  /** Against a service that accepts everything, the attachment stage uploads each
      attachment and updates the body once, and warns about nothing. */
  lemma AttachStageAnswered(respond: Service, run: Run, attachments: seq<Attachment>, noteId: string, noteBody: string,
                            n: nat)
    requires AnswersSearches(respond, n)
    ensures var r := AttachStage(respond, run, attachments, noteId, noteBody);
            && |r.log| == |run.log| + (if attachments == [] then 0 else |attachments| + 1)
            && r.warnings == run.warnings
  {
    AttachStageRequests(respond, run, attachments, noteId, noteBody);
    if attachments != [] {
      AttachmentLoopAnswered(respond, run, attachments, n);
      var (uploaded, summary) := AttachmentLoop(respond, run, attachments);
      assert respond(uploaded.log + [UpdateNote(noteId, noteBody + summary)]).Ok?;
    }
  }

  /** After the header, against a service that accepts everything and answers every tag
      search with `n` matches: `RequestsPerTag(n)` requests per tag candidate, then one
      upload per attachment and the update of the body when there are attachments. */
  lemma AfterHeaderCount(respond: Service, log2: seq<Request>, s: Settings, h: MailHeader, mail: MailInput, info: Reply,
                         n: nat)
    requires info.Ok? && (s.tagsFromEmail ==> AllKnown(h.tags, mail.tagMapping)) && AnswersSearches(respond, n)
    ensures var r := AfterHeader(respond, log2, s, h, mail, info);
            var tags := TagCandidates(s, h, mail.tagMapping);
            && |r.log| == |log2| + RequestsPerTag(n) * |tags|
                          + (if s.attachments == "ignore" || mail.attachments == [] then 0 else |mail.attachments| + 1)
            && |r.warnings| == (if n > 1 then |tags| else 0)
  {
    var tags := TagCandidates(s, h, mail.tagMapping);
    TagLoopAnswered(respond, Run(log2, []), tags, info.id, n);
    var tagged := TagLoop(respond, Run(log2, []), tags, info.id);
    if s.attachments != "ignore" {
      AttachStageAnswered(respond, tagged, mail.attachments, info.id, info.body, n);
    }
  }

  /** Once the note exists, the export fails exactly when the header update fails: the
      update is then the last request, and the error reports its reply. */
  lemma AfterCreateErrors(respond: Service, log1: seq<Request>, s: Settings, h: MailHeader, mail: MailInput, created: Reply)
    requires created.Ok? && (s.tagsFromEmail ==> AllKnown(h.tags, mail.tagMapping))
    ensures var r := AfterCreate(respond, log1, s, h, mail, created);
            && Extends(r.log, log1)
            && (s.attachments == "ignore" ==> NoUploads(r.log[|log1|..]))
            && (r.error.Some? ==>
                  && s.headerTemplate != "" && |r.log| == |log1| + 1 && r.log[|log1|].UpdateNote?
                  && respond(r.log).Fail? && r.warnings == []
                  && r.error.value == "Failed to add header info to note: " + respond(r.log).text)
            && var update := UpdateNote(created.id, Template.Render(s.headerTemplate, RenderingContext(s, h, mail)) + created.body);
               s.headerTemplate != "" && respond(log1 + [update]).Fail? ==>
                 r == Outcome(Some("Failed to add header info to note: " + respond(log1 + [update]).text), log1 + [update], [])
  {
    var ctx := RenderingContext(s, h, mail);
    HeaderStepRequests(respond, log1, s.headerTemplate, ctx, created);
    var (log2, info) := HeaderStep(respond, log1, s.headerTemplate, ctx, created);
    if info.Ok? {
      AfterHeaderTraffic(respond, log2, s, h, mail, info);
      var r := AfterHeader(respond, log2, s, h, mail, info);
      Appended(log1, log2[|log1|..]);
      assert log1 + log2[|log1|..] == log2;
      if s.attachments == "ignore" {
        assert NoUploads(log2[|log1|..]);
        NoUploadsJoin(log1, log2, r.log);
      } else {
        ExtendsTrans(log1, log2, r.log);
      }
    } else {
      assert log2 == log1 + [log2[|log1|]];
      Appended(log1, [log2[|log1|]]);
    }
  }

  /** Where the export stops with an error, and what it has sent by then: nothing when
      the note cannot be prepared (no header, no valid notebook, no body); the note's
      creation when that fails; the creation and the header update when the latter fails.
      The error then reports the reply to the last request, and a failed creation always
      ends the export so. The tag and attachment loops never produce an error. Every
      error is a non-empty text. */
  lemma ExportErrors(respond: Service, log0: seq<Request>, s: Settings, mail: MailInput)
    requires TagsKnown(s, mail)
    ensures var r := Export(respond, log0, s, mail);
            && Extends(r.log, log0)
            && (r.log == log0 <==> Prepare(s, mail).Failure?)
            && (Prepare(s, mail).Failure? ==> r == Outcome(Some(Prepare(s, mail).error), log0, []))
            && (r.error.Some? ==> r.error.value != "" && r.warnings == [])
            && (r.error.Some? && Prepare(s, mail).Success? ==>
                  && |log0| + 1 <= |r.log| <= |log0| + 2
                  && r.log[|log0|] == CreateNote(Prepare(s, mail).value)
                  && respond(r.log).Fail?
                  && r.error.value == (if |r.log| == |log0| + 1 then "Failed to create note: "
                                       else "Failed to add header info to note: ") + respond(r.log).text)
            && (r.error.None? ==> Prepare(s, mail).Success? && respond(log0 + [CreateNote(Prepare(s, mail).value)]).Ok?)
            && (Prepare(s, mail).Success? && respond(log0 + [CreateNote(Prepare(s, mail).value)]).Fail? ==>
                  var log1 := log0 + [CreateNote(Prepare(s, mail).value)];
                  r == Outcome(Some("Failed to create note: " + respond(log1).text), log1, []))
  {
    match Prepare(s, mail)
    case Failure(e) =>
      assert e != "" by {
        if mail.header.Some? && ValidFolder(s.parentFolder) {
          assert e == "Mail body is empty";
        }
      }
    case Success(note) =>
      var log1 := log0 + [CreateNote(note)];
      Appended(log0, [CreateNote(note)]);
      if respond(log1).Ok? {
        AfterCreateErrors(respond, log1, s, mail.header.value, mail, respond(log1));
        var r := AfterCreate(respond, log1, s, mail.header.value, mail, respond(log1));
        ExtendsTrans(log0, log1, r.log);
        assert r.log[|log0|] == r.log[..|log1|][|log0|];
      }
  }

  /** With the attachments setting "ignore", the export uploads nothing. */
  lemma IgnoredAttachments(respond: Service, log0: seq<Request>, s: Settings, mail: MailInput)
    requires TagsKnown(s, mail) && s.attachments == "ignore"
    ensures var r := Export(respond, log0, s, mail);
            Extends(r.log, log0) && NoUploads(r.log[|log0|..])
  {
    var r := Export(respond, log0, s, mail);
    match Prepare(s, mail)
    case Failure(_) =>
      assert r.log[|log0|..] == [];
    case Success(note) =>
      var log1 := log0 + [CreateNote(note)];
      Appended(log0, [CreateNote(note)]);
      if respond(log1).Ok? {
        AfterCreateErrors(respond, log1, s, mail.header.value, mail, respond(log1));
        NoUploadsJoin(log0, log1, r.log);
      }
  }

  /** The request count of a whole export against a service that accepts every request
      and answers every tag search with `n` matches: the note, the header when there is a
      template, `RequestsPerTag(n)` per tag candidate, and with attachments one upload
      each plus the update of the body. The export succeeds, and warns only about tags
      with several matches. */
  lemma ExportRequestCount(respond: Service, log0: seq<Request>, s: Settings, mail: MailInput, n: nat)
    requires TagsKnown(s, mail) && Prepare(s, mail).Success? && AnswersSearches(respond, n)
    ensures var r := Export(respond, log0, s, mail);
            var tags := TagCandidates(s, mail.header.value, mail.tagMapping);
            && r.error.None?
            && |r.log| == |log0| + 1 + (if s.headerTemplate == "" then 0 else 1) + RequestsPerTag(n) * |tags|
                          + (if s.attachments == "ignore" || mail.attachments == [] then 0 else |mail.attachments| + 1)
            && |r.warnings| == (if n > 1 then |tags| else 0)
  {
    var log1 := log0 + [CreateNote(Prepare(s, mail).value)];
    assert respond(log1).Ok?;
    var h := mail.header.value;
    var created := respond(log1);
    var ctx := RenderingContext(s, h, mail);
    HeaderStepRequests(respond, log1, s.headerTemplate, ctx, created);
    var (log2, info) := HeaderStep(respond, log1, s.headerTemplate, ctx, created);
    assert info.Ok? by {
      if s.headerTemplate != "" {
        assert log2 != [];
      }
    }
    AfterHeaderCount(respond, log2, s, h, mail, info, n);
  }
}
