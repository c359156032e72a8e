/** The body of an email as the exporter reads it (`getMailContent` and the choice between
    `body` and `body_html`): a MIME tree whose parts of one content type are gathered in
    pre-order, and a decision table on the preferred format and on which kinds are
    present. */
module MailContent {
  import opened Wrappers
  import opened TextUtil

  /** A node of the full message as the mail client returns it: `Absent` is a missing
      (undefined) node; a missing body or a missing list of parts is the empty one. */
  datatype Mail = Absent | Part(body: string, contentType: string, parts: seq<Mail>)

  const Html := "text/html"
  const Plain := "text/plain"

  /** A node that holds a non-empty body of the requested type. */
  predicate Contributes(m: Mail, contentType: string)
  {
    m.Part? && m.body != "" && m.contentType == contentType
  }

  /** What a node contributes by itself. */
  function Own(m: Mail, contentType: string): string
  {
    if Contributes(m, contentType) then m.body else ""
  }

  /** The contribution of a node and of everything below it. */
  function ContentOf(m: Mail, contentType: string): string
    decreases m, 1
  {
    match m
    case Absent => ""
    case Part(_, _, parts) => Own(m, contentType) + ContentOfParts(parts, contentType)
  }

  /** The contributions of a list of parts, in order. */
  function ContentOfParts(parts: seq<Mail>, contentType: string): string
    decreases parts, 0
  {
    if parts == [] then ""
    else ContentOfParts(parts[..|parts| - 1], contentType) + ContentOf(parts[|parts| - 1], contentType)
  }

  /** `getMailContent(mail, contentType, content)`: appends to `content` the non-empty
      bodies of the requested type, the node's own before those of its parts. */
  method GetMailContent(mail: Mail, contentType: string, content: string) returns (r: string)
    ensures r == content + ContentOf(mail, contentType)
    decreases mail
  {
    if mail.Absent? {
      return content;
    }
    r := content;
    if mail.body != "" && mail.contentType == contentType {
      r := r + mail.body;
    }
    var parts := mail.parts;
    ghost var own := r;
    assert own == content + Own(mail, contentType);
    for i := 0 to |parts|
      invariant r == own + ContentOfParts(parts[..i], contentType)
    {
      assert parts[i] in parts;
      r := GetMailContent(parts[i], contentType, r);
      PartsSnoc(parts, i, contentType);
      Assoc3(own, ContentOfParts(parts[..i], contentType), ContentOf(parts[i], contentType));
    }
    assert parts[..|parts|] == parts;
    Assoc3(content, Own(mail, contentType), ContentOfParts(parts, contentType));
  }

  lemma PartsSnoc(parts: seq<Mail>, i: nat, contentType: string)
    requires i < |parts|
    ensures ContentOfParts(parts[..i + 1], contentType)
            == ContentOfParts(parts[..i], contentType) + ContentOf(parts[i], contentType)
  {
    assert parts[..i + 1][..i] == parts[..i];
  }

  // ---------------------------------------------------------------------------
  // Pre-order, as an independent description

  /** Every node of the tree, each before the nodes below it, siblings left to right. */
  function PreOrder(m: Mail): seq<Mail>
    decreases m, 1
  {
    match m
    case Absent => []
    case Part(_, _, parts) => [m] + PreOrderAll(parts)
  }

  function PreOrderAll(parts: seq<Mail>): seq<Mail>
    decreases parts, 0
  {
    if parts == [] then [] else PreOrderAll(parts[..|parts| - 1]) + PreOrder(parts[|parts| - 1])
  }

  /** The own contributions of a list of nodes, concatenated. */
  function Gather(nodes: seq<Mail>, contentType: string): string
  {
    if nodes == [] then "" else Gather(nodes[..|nodes| - 1], contentType) + Own(nodes[|nodes| - 1], contentType)
  }

  lemma {:induction false} GatherConcat(a: seq<Mail>, b: seq<Mail>, contentType: string)
    ensures Gather(a + b, contentType) == Gather(a, contentType) + Gather(b, contentType)
    decreases |b|
  {
    if b == [] {
      assert a + b == a;
    } else {
      var init, last := b[..|b| - 1], b[|b| - 1];
      assert (a + b)[..|a + b| - 1] == a + init;
      assert (a + b)[|a + b| - 1] == last;
      GatherConcat(a, init, contentType);
      Assoc3(Gather(a, contentType), Gather(init, contentType), Own(last, contentType));
    }
  }

  /** The content gathered from a tree is the own contributions of its nodes, in
      pre-order. */
  lemma {:induction false} ContentIsPreOrder(m: Mail, contentType: string)
    ensures ContentOf(m, contentType) == Gather(PreOrder(m), contentType)
    decreases m, 1
  {
    if m.Part? {
      ContentIsPreOrderAll(m.parts, contentType);
      GatherConcat([m], PreOrderAll(m.parts), contentType);
      assert Gather([m], contentType) == Own(m, contentType) by {
        assert [m][..0] == [];
      }
    }
  }

  lemma {:induction false} ContentIsPreOrderAll(parts: seq<Mail>, contentType: string)
    ensures ContentOfParts(parts, contentType) == Gather(PreOrderAll(parts), contentType)
    decreases parts, 0
  {
    if parts != [] {
      var init, last := parts[..|parts| - 1], parts[|parts| - 1];
      ContentIsPreOrderAll(init, contentType);
      ContentIsPreOrder(last, contentType);
      GatherConcat(PreOrderAll(init), PreOrder(last), contentType);
    }
  }

  /** Nothing is gathered exactly when no node contributes anything. */
  lemma {:induction false} GatherEmpty(nodes: seq<Mail>, contentType: string)
    ensures Gather(nodes, contentType) == ""
            <==> forall i :: 0 <= i < |nodes| ==> !Contributes(nodes[i], contentType)
  {
    if nodes != [] {
      var init := nodes[..|nodes| - 1];
      GatherEmpty(init, contentType);
      assert forall i :: 0 <= i < |init| ==> init[i] == nodes[i];
    }
  }

  /** A tree yields the empty string exactly when none of its nodes has a non-empty body
      of the requested type; in particular a type absent from the tree yields "". */
  lemma ContentEmpty(m: Mail, contentType: string)
    ensures ContentOf(m, contentType) == ""
            <==> forall i :: 0 <= i < |PreOrder(m)| ==> !Contributes(PreOrder(m)[i], contentType)
  {
    ContentIsPreOrder(m, contentType);
    GatherEmpty(PreOrder(m), contentType);
  }

  // ---------------------------------------------------------------------------
  // Which body the note gets

  /** The fields `body` and `body_html` of the note to create. */
  datatype Bodies = Bodies(body: Option<string>, bodyHtml: Option<string>)

  /** The choice between the HTML and the plain body of the full message, for the
      preferred format `format`. */
  function ChooseBody(format: string, html: string, plain: string): (r: Result<Bodies, string>)
    ensures r.Failure? <==> html == "" && plain == ""
    ensures r.Failure? ==> r.error == "Mail body is empty"
    ensures r.Success? ==>
              && (r.value.bodyHtml.Some? <==> (format == Html && html != "") || plain == "")
              && (r.value.body.Some? <==> (format == Plain && plain != "") || html == "")
              && (r.value.bodyHtml.Some? ==> r.value.bodyHtml.value == html)
              && (r.value.body.Some? ==> r.value.body.value == plain)
  {
    if html == "" && plain == "" then Failure("Mail body is empty")
    else
      var bodyHtml := if (format == Html && html != "") || plain == "" then Some(html) else None;
      var body := if (format == Plain && plain != "") || html == "" then Some(plain) else None;
      Success(Bodies(body, bodyHtml))
  }

  /** What the note's body is: the selected text when it is not only whitespace,
      otherwise the chosen body of the full message. */
  function SelectBody(selectedText: string, full: Mail, format: string): (r: Result<Bodies, string>)
    ensures !OnlyWhitespace(selectedText) ==> r == Success(Bodies(Some(selectedText), None))
    ensures OnlyWhitespace(selectedText) ==> r == ChooseBody(format, ContentOf(full, Html), ContentOf(full, Plain))
    ensures r.Failure? <==> OnlyWhitespace(selectedText) && ContentOf(full, Html) == "" && ContentOf(full, Plain) == ""
    ensures r.Failure? ==> r.error == "Mail body is empty"
  {
    if !OnlyWhitespace(selectedText) then Success(Bodies(Some(selectedText), None))
    else ChooseBody(format, ContentOf(full, Html), ContentOf(full, Plain))
  }

  /** With a preferred format of HTML or plain text and some body present, exactly one
      of the two fields is set: the preferred kind when it is non-empty, else the other. */
  lemma ChooseExactlyOne(format: string, html: string, plain: string)
    requires format == Html || format == Plain
    requires html != "" || plain != ""
    ensures ChooseBody(format, html, plain).Success?
    ensures var b := ChooseBody(format, html, plain).value;
            b.body.Some? != b.bodyHtml.Some?
            && (b.bodyHtml.Some? <==> (format == Html && html != "") || (format == Plain && plain == ""))
  {
  }

  /** The test message with an HTML part and a plain part, each empty or holding `body`. */
  function TwoParts(body: string, htmlAvailable: bool, plainAvailable: bool): Mail
  {
    Part("", "", [Part(if htmlAvailable then body else "", Html, []),
                  Part(if plainAvailable then body else "", Plain, [])])
  }

  lemma TwoPartsContent(body: string, htmlAvailable: bool, plainAvailable: bool)
    ensures ContentOf(TwoParts(body, htmlAvailable, plainAvailable), Html) == if htmlAvailable then body else ""
    ensures ContentOf(TwoParts(body, htmlAvailable, plainAvailable), Plain) == if plainAvailable then body else ""
  {
    var m := TwoParts(body, htmlAvailable, plainAvailable);
    var ps := m.parts;
    assert ps[..1][..0] == [] && ps[..|ps| - 1] == ps[..1];
    forall ct | ct == Html || ct == Plain
      ensures ContentOf(m, ct) == ContentOf(ps[0], ct) + ContentOf(ps[1], ct)
    {
      assert ContentOfParts(ps[..1], ct) == ContentOf(ps[0], ct);
    }
    assert ContentOf(ps[0], Html) == Own(ps[0], Html) && ContentOf(ps[0], Plain) == "";
    assert ContentOf(ps[1], Plain) == Own(ps[1], Plain) && ContentOf(ps[1], Html) == "";
  }

  /** The format table of the exporter: for every preference, when neither kind is
      present the export stops with "Mail body is empty"; otherwise exactly the one field
      named by the table is set, to the body of that kind. */
  lemma BodyFormatTable(format: string, body: string, htmlAvailable: bool, plainAvailable: bool)
    requires format == Html || format == Plain
    requires body != ""
    ensures var r := SelectBody("", TwoParts(body, htmlAvailable, plainAvailable), format);
            var resultHtml := htmlAvailable && (format == Html || !plainAvailable);
            && (!htmlAvailable && !plainAvailable ==> r == Failure("Mail body is empty"))
            && (htmlAvailable || plainAvailable ==>
                  r == if resultHtml then Success(Bodies(None, Some(body))) else Success(Bodies(Some(body), None)))
  {
    assert OnlyWhitespace("");
    TwoPartsContent(body, htmlAvailable, plainAvailable);
  }
}
