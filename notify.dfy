/** The export of all displayed emails (`getAndProcessMessages`): without an API token
    nothing is sent; otherwise every email is exported in turn, the errors are folded
    into one success flag, and a notification is built and shown according to the
    notification setting. */
module Notify {
  import opened Wrappers
  import opened TextUtil
  import opened Remote
  import opened MailExport
  import opened ExportProperties

  const BlueIcon := "../images/logo_96_blue.png"
  const RedIcon := "../images/logo_96_red.png"
  const SucceededTitle := "Joplin export succeeded"
  const FailedTitle := "Joplin export failed"
  const TokenMissing := "API token missing."
  const CheckConsole := "Please check the developer console."

  datatype Notification = Notification(icon: string, title: string, message: string)

  /** The aggregate of one export run: whether it succeeded, and what to tell. */
  datatype Summary = Summary(success: bool, notification: Notification)

  /** A result that counts as an error: a non-empty error text. */
  predicate Failed(result: Option<string>)
  {
    result.Some? && result.value != ""
  }

  predicate NoneFailed(results: seq<Option<string>>)
  {
    forall i :: 0 <= i < |results| ==> !Failed(results[i])
  }

  /** The message of a successful run over `n` emails. */
  function CountMessage(n: nat): string
  {
    if n == 1 then "Exported one email." else "Exported " + DecimalString(n) + " emails."
  }

  /** The summary of a run: a missing token fails at once; otherwise the run succeeds
      when no email failed. */
  function SummaryOf(token: string, results: seq<Option<string>>): Summary
  {
    if token == "" then Summary(false, Notification(RedIcon, FailedTitle, TokenMissing))
    else if NoneFailed(results) then Summary(true, Notification(BlueIcon, SucceededTitle, CountMessage(|results|)))
    else Summary(false, Notification(RedIcon, FailedTitle, CheckConsole))
  }

  /** The notification setting decides whether a run's outcome is shown. */
  predicate Shown(success: bool, mode: string)
  {
    (success && mode in ["always", "onSuccess"]) || (!success && mode in ["always", "onFailure"])
  }

  function Notice(summary: Summary, mode: string): Option<Notification>
  {
    if Shown(summary.success, mode) then Some(summary.notification) else None
  }

  /** The folded success flag and the notification texts, as the exporter sets them. */
  method Summarize(token: string, results: seq<Option<string>>) returns (summary: Summary)
    ensures summary == SummaryOf(token, results)
  {
    var success := true;
    var icon := RedIcon;
    var title := FailedTitle;
    var message: string;
    if token == "" {
      message := TokenMissing;
      success := false;
    } else {
      for i := 0 to |results|
        invariant success <==> NoneFailed(results[..i])
      {
        if results[i].Some? && results[i].value != "" {
          success := false;
        }
        assert results[..i + 1] == results[..i] + [results[i]];
      }
      assert results[..|results|] == results;
      if success {
        icon := BlueIcon;
        title := SucceededTitle;
        message := if |results| == 1 then "Exported one email." else "Exported " + DecimalString(|results|) + " emails.";
      } else {
        message := CheckConsole;
      }
    }
    summary := Summary(success, Notification(icon, title, message));
  }

  /** The emails exported one after the other: the requests of all of them, in order,
      and the error of each. */
  function ExportAll(respond: Service, log0: seq<Request>, s: Settings, mails: seq<MailInput>)
    : (r: (seq<Request>, seq<Option<string>>))
    requires forall i :: 0 <= i < |mails| ==> TagsKnown(s, mails[i])
    ensures |r.1| == |mails|
  {
    if mails == [] then (log0, [])
    else
      var (log, errors) := ExportAll(respond, log0, s, mails[..|mails| - 1]);
      var r := Export(respond, log, s, mails[|mails| - 1]);
      (r.log, errors + [r.error])
  }

  /** A whole run: the requests sent and the notification shown, if any. */
  function Session(respond: Service, log0: seq<Request>, s: Settings, mails: seq<MailInput>)
    : (seq<Request>, Option<Notification>)
    requires forall i :: 0 <= i < |mails| ==> TagsKnown(s, mails[i])
  {
    if s.token == "" then (log0, Notice(SummaryOf("", []), s.showNotifications))
    else
      var (log, errors) := ExportAll(respond, log0, s, mails);
      (log, Notice(SummaryOf(s.token, errors), s.showNotifications))
  }

  /** `getAndProcessMessages` over the displayed emails `mails`: returns the notification
      shown, if any. */
  method GetAndProcessMessages(api: RemoteApi, s: Settings, mails: seq<MailInput>) returns (shown: Option<Notification>)
    requires forall i :: 0 <= i < |mails| ==> TagsKnown(s, mails[i])
    modifies api
    ensures (api.log, shown) == Session(api.respond, old(api.log), s, mails)
  {
    var results: seq<Option<string>> := [];
    if s.token != "" {
      for i := 0 to |mails|
        invariant (api.log, results) == ExportAll(api.respond, old(api.log), s, mails[..i])
      {
        assert mails[..i + 1][..i] == mails[..i];
        var error, _ := ProcessMail(api, s, mails[i]);
        results := results + [error];
      }
      assert mails[..|mails|] == mails;
    }
    var summary := Summarize(s.token, results);
    shown := if Shown(summary.success, s.showNotifications) then Some(summary.notification) else None;
  }

  // ---------------------------------------------------------------------------
  // Properties

  /** The fold exports every email once, appends to the log, and every error it reports
      is a non-empty text. */
  lemma {:induction false} ExportAllErrors(respond: Service, log0: seq<Request>, s: Settings, mails: seq<MailInput>)
    requires forall i :: 0 <= i < |mails| ==> TagsKnown(s, mails[i])
    ensures var (log, errors) := ExportAll(respond, log0, s, mails);
            && |errors| == |mails| && Extends(log, log0)
            && forall i :: 0 <= i < |errors| ==> (Failed(errors[i]) <==> errors[i].Some?)
  {
    if mails != [] {
      var init := mails[..|mails| - 1];
      ExportAllErrors(respond, log0, s, init);
      var (log, errors) := ExportAll(respond, log0, s, init);
      ExportErrors(respond, log, s, mails[|mails| - 1]);
      var r := Export(respond, log, s, mails[|mails| - 1]);
      ExtendsTrans(log0, log, r.log);
    }
  }

  /** With a token, the run succeeds exactly when no email's export reported an error. */
  lemma SessionSuccess(respond: Service, log0: seq<Request>, s: Settings, mails: seq<MailInput>)
    requires forall i :: 0 <= i < |mails| ==> TagsKnown(s, mails[i])
    requires s.token != ""
    ensures var errors := ExportAll(respond, log0, s, mails).1;
            SummaryOf(s.token, errors).success <==> forall i :: 0 <= i < |mails| ==> errors[i].None?
  {
    ExportAllErrors(respond, log0, s, mails);
  }

  /** Without a token nothing is sent, and the failure "API token missing." is shown
      unless only successes are to be shown. */
  lemma SessionWithoutToken(respond: Service, log0: seq<Request>, s: Settings, mails: seq<MailInput>)
    requires forall i :: 0 <= i < |mails| ==> TagsKnown(s, mails[i])
    requires s.token == ""
    ensures Session(respond, log0, s, mails).0 == log0
    ensures Session(respond, log0, s, mails).1
            == if s.showNotifications in ["always", "onFailure"]
               then Some(Notification(RedIcon, FailedTitle, TokenMissing)) else None
  {
  }

  /** The notification table: the mode "always" shows every outcome, "onSuccess" only
      successes, "onFailure" only failures, and any other mode nothing. */
  lemma NotificationModes(success: bool, mode: string)
    ensures Shown(success, mode) <==> mode == "always" || (success && mode == "onSuccess") || (!success && mode == "onFailure")
  {
    assert ["always", "onSuccess"][0] == "always" && ["always", "onSuccess"][1] == "onSuccess";
    assert ["always", "onFailure"][0] == "always" && ["always", "onFailure"][1] == "onFailure";
  }

  /** The success message names the number of emails in decimal, or says "one". */
  lemma CountMessageNumber(n: nat)
    ensures n == 1 ==> CountMessage(n) == "Exported one email."
    ensures n != 1 ==> exists digits: string :: |digits| >= 1 && (forall i :: 0 <= i < |digits| ==> IsDigit(digits[i]))
                                                && DecimalValue(digits) == n
                                                && CountMessage(n) == "Exported " + digits + " emails."
  {
    if n != 1 {
      DecimalRoundTrip(n);
      var digits := DecimalString(n);
      assert DecimalValue(digits) == n;
    }
  }

  /** The summary of one result under a token: success exactly when it is no error. */
  lemma OneResultSummary(token: string, result: Option<string>)
    requires token != "" && (result.Some? ==> result.value != "")
    ensures SummaryOf(token, [result])
            == if result.None? then Summary(true, Notification(BlueIcon, SucceededTitle, "Exported one email."))
               else Summary(false, Notification(RedIcon, FailedTitle, CheckConsole))
  {
    assert NoneFailed([result]) <==> !Failed([result][0]);
  }

  /** The exporter's notification tests with one email: a successful export is reported
      as "Exported one email." under "always" and "onSuccess"; a failed one (an email
      without a header, say) is reported under "always" and "onFailure"; otherwise
      nothing is shown. */
  lemma OneEmailNotification(respond: Service, log0: seq<Request>, s: Settings, mail: MailInput)
    requires TagsKnown(s, mail) && s.token != ""
    ensures var shown := Session(respond, log0, s, [mail]).1;
            var ok := Export(respond, log0, s, mail).error.None?;
            && (ok ==> shown == if s.showNotifications in ["always", "onSuccess"]
                                then Some(Notification(BlueIcon, SucceededTitle, "Exported one email.")) else None)
            && (!ok ==> shown == if s.showNotifications in ["always", "onFailure"]
                                 then Some(Notification(RedIcon, FailedTitle, CheckConsole)) else None)
  {
    var r := Export(respond, log0, s, mail);
    assert ExportAll(respond, log0, s, [mail]).1 == [r.error] by {
      assert [mail][..0] == [];
    }
    assert r.error.Some? ==> r.error.value != "" by {
      ExportErrors(respond, log0, s, mail);
    }
    OneResultSummary(s.token, r.error);
  }

  /** An email without a header fails the run. */
  lemma HeaderlessFails(respond: Service, log0: seq<Request>, s: Settings, mail: MailInput)
    requires TagsKnown(s, mail) && mail.header.None?
    ensures Export(respond, log0, s, mail) == Outcome(Some("Mail header is empty"), log0, [])
  {
    ExportErrors(respond, log0, s, mail);
  }
}
