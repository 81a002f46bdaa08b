/** The `getmail_nodelete` management command: the `--transport-type`
    dispatch, the notification fan-out for one mailbox, and the loop over
    the selected mailboxes that tallies messages and failures. What one
    mailbox's `get_new_mail` does is a parameter here; the transport loop it
    drains is modelled by `Transports`. */
module GetmailNodelete {
  import opened Base
  import Transports

  /** The four mailbox classes, one per transport variant. */
  datatype MailboxClass = NoDeleteMailbox | MarkAsReadMailbox | UnreadOnlyMailbox | UnreadOnlyNoMarkMailbox

  /** The transport each class connects with. This is the boundary of the
      command's model: what `get_new_mail` of a mailbox of class `c` yields is
      the `yielded` list of `Transports.Cycle` for `VariantOf(c)`, and the
      command below takes it as a parameter. */
  function VariantOf(c: MailboxClass): Transports.Variant {
    match c
    case NoDeleteMailbox => Transports.NoDelete
    case MarkAsReadMailbox => Transports.MarkAsRead
    case UnreadOnlyMailbox => Transports.UnreadOnly
    case UnreadOnlyNoMarkMailbox => Transports.UnreadOnlyNoMark
  }

  /** The class whose mailboxes connect with variant `v`. */
  function ClassOf(v: Transports.Variant): MailboxClass {
    match v
    case NoDelete => NoDeleteMailbox
    case MarkAsRead => MarkAsReadMailbox
    case UnreadOnly => UnreadOnlyMailbox
    case UnreadOnlyNoMark => UnreadOnlyNoMarkMailbox
  }

  /** Classes and transport variants correspond one to one. */
  lemma VariantOfIsBijective()
    ensures forall c :: ClassOf(VariantOf(c)) == c
    ensures forall v :: VariantOf(ClassOf(v)) == v
    ensures forall c1, c2 :: VariantOf(c1) == VariantOf(c2) ==> c1 == c2
  {
  }

  /** The `--transport-type` choices. */
  const TransportChoices: seq<string> := ["nodelete", "markread", "unreadonly", "unreadonlynomark"]

  /** The choice that selects each class. */
  function ChoiceOf(c: MailboxClass): (choice: string)
    ensures choice in TransportChoices
  {
    match c
    case NoDeleteMailbox => "nodelete"
    case MarkAsReadMailbox => "markread"
    case UnreadOnlyMailbox => "unreadonly"
    case UnreadOnlyNoMarkMailbox => "unreadonlynomark"
  }

  /** What argparse and the dispatch in `handle` make of `--transport-type`:
      the default "nodelete" when the option is absent, the class of a listed
      choice, and a usage error naming the value for anything else. */
  function ParseTransportType(arg: Option<string>): (r: Result<MailboxClass, string>)
    ensures r.Success? <==> arg.None? || arg.value in TransportChoices
    ensures r.Failure? ==> arg.Some? && r.error == arg.value
  {
    var choice := if arg.None? then "nodelete" else arg.value;
    if choice == "nodelete" then Success(NoDeleteMailbox)
    else if choice == "markread" then Success(MarkAsReadMailbox)
    else if choice == "unreadonly" then Success(UnreadOnlyMailbox)
    else if choice == "unreadonlynomark" then Success(UnreadOnlyNoMarkMailbox)
    else Failure(choice)
  }

  /** The choices and the classes correspond one to one, and the default is
      the no-delete class. */
  lemma DispatchIsBijective()
    ensures ParseTransportType(None) == Success(NoDeleteMailbox)
    ensures forall c :: ParseTransportType(Some(ChoiceOf(c))) == Success(c)
    ensures forall a :: a in TransportChoices ==>
      ParseTransportType(Some(a)).Success? && ChoiceOf(ParseTransportType(Some(a)).value) == a
    ensures forall c1, c2 :: ChoiceOf(c1) == ChoiceOf(c2) ==> c1 == c2
  {
  }

  /** One call of `send_email_alert`: the message (`None` for the summary),
      the mailbox name and the message count. */
  datatype Alert<M> = Alert(emailData: Option<M>, mailboxName: string, messageCount: nat)

  /** One alert per message, in order, each with count 1. */
  function PerMessageAlerts<M>(messages: seq<M>, name: string): (alerts: seq<Alert<M>>)
    ensures |alerts| == |messages|
    ensures forall i :: 0 <= i < |messages| ==> alerts[i] == Alert(Some(messages[i]), name, 1)
    decreases |messages|
  {
    if messages == [] then []
    else PerMessageAlerts(messages[..|messages| - 1], name) + [Alert(Some(messages[|messages| - 1]), name, 1)]
  }

  /** The alerts `send_email_notification` sends for one mailbox: none for
      no messages, otherwise one per message and then a summary when there is
      more than one. */
  function NotificationAlerts<M>(messages: seq<M>, name: string): seq<Alert<M>> {
    if messages == [] then []
    else PerMessageAlerts(messages, name) + (if |messages| > 1 then [Alert(None, name, |messages|)] else [])
  }

  /** The fan-out: n alerts for n messages, plus one summary exactly when n is
      more than 1; the summary comes last and carries the count. */
  lemma NotificationFanOut<M>(messages: seq<M>, name: string)
    ensures var n, alerts := |messages|, NotificationAlerts(messages, name);
      && |alerts| == (if n > 1 then n + 1 else n)
      && (forall i :: 0 <= i < n ==> alerts[i] == Alert(Some(messages[i]), name, 1))
      && (forall i :: 0 <= i < |alerts| ==> (alerts[i].emailData.None? <==> i == n))
      && (n > 1 ==> alerts[n] == Alert(None, name, n))
  {
  }

  /** `send_email_notification`: sends the alerts in order. The reply of each
      send (success, failure or an exception) only chooses a log line, so it
      never reaches the caller. */
  method SendEmailNotification<M>(messages: seq<M>, mailboxName: string) returns (sent: seq<Alert<M>>)
    ensures sent == NotificationAlerts(messages, mailboxName)
  {
    sent := [];
    if |messages| == 0 {
      return;
    }
    for i := 0 to |messages|
      invariant |sent| == i
      invariant forall k :: 0 <= k < i ==> sent[k] == Alert(Some(messages[k]), mailboxName, 1)
    {
      sent := sent + [Alert(Some(messages[i]), mailboxName, 1)];
    }
    assert sent == PerMessageAlerts(messages, mailboxName);
    if |messages| > 1 {
      sent := sent + [Alert(None, mailboxName, |messages|)];
    }
  }

  /** A row of the mailbox table as the query sees it. */
  datatype MailboxRecord = MailboxRecord(name: string, active: bool)

  /** The `CommandError` raised when the query finds nothing. */
  datatype CommandError = NoActiveMailboxes | NoActiveMailboxesNamed(names: seq<string>)

  /** The final counters, and whether the warning line is written. */
  datatype Report = Report(totalMessages: nat, successful: nat, failed: nat, warned: bool)

  /** The query: the active mailboxes, restricted to the given names when
      there are any, in table order. */
  function SelectMailboxes(db: seq<MailboxRecord>, names: seq<string>): (sel: seq<MailboxRecord>)
    ensures |sel| <= |db|
    ensures forall mb :: mb in sel <==> mb in db && mb.active && (names == [] || mb.name in names)
    decreases |db|
  {
    if db == [] then []
    else
      var mb := db[|db| - 1];
      var rest := SelectMailboxes(db[..|db| - 1], names);
      assert forall x :: x in db <==> x in db[..|db| - 1] || x == mb by {
        assert db == db[..|db| - 1] + [mb];
      }
      rest + (if mb.active && (names == [] || mb.name in names) then [mb] else [])
  }

  /** The mailboxes whose `get_new_mail` returned, each with its messages, in
      loop order. */
  function Delivered<M>(cls: MailboxClass, mbs: seq<MailboxRecord>, getNewMail: (MailboxClass, MailboxRecord) -> Reply<seq<M>>)
    : seq<(MailboxRecord, seq<M>)>
    decreases |mbs|
  {
    if mbs == [] then []
    else
      var mb := mbs[|mbs| - 1];
      Delivered(cls, mbs[..|mbs| - 1], getNewMail)
        + (match getNewMail(cls, mb) case Raised => [] case Returned(ms) => [(mb, ms)])
  }

  /** The mailboxes whose `get_new_mail` raised, in loop order. */
  function Raising<M>(cls: MailboxClass, mbs: seq<MailboxRecord>, getNewMail: (MailboxClass, MailboxRecord) -> Reply<seq<M>>)
    : seq<MailboxRecord>
    decreases |mbs|
  {
    if mbs == [] then []
    else
      var mb := mbs[|mbs| - 1];
      Raising(cls, mbs[..|mbs| - 1], getNewMail) + (if getNewMail(cls, mb).Raised? then [mb] else [])
  }

  function MessageTotal<M>(ds: seq<(MailboxRecord, seq<M>)>): nat
    decreases |ds|
  {
    if ds == [] then 0 else MessageTotal(ds[..|ds| - 1]) + |ds[|ds| - 1].1|
  }

  function AllAlerts<M>(ds: seq<(MailboxRecord, seq<M>)>): seq<Alert<M>>
    decreases |ds|
  {
    if ds == [] then []
    else
      var d := ds[|ds| - 1];
      AllAlerts(ds[..|ds| - 1]) + NotificationAlerts(d.1, d.0.name)
  }

  /** One more mailbox whose `get_new_mail` raised: it joins the raising
      list and adds no messages and no alerts. */
  lemma HandleStepRaised<M>(cls: MailboxClass, mbs: seq<MailboxRecord>, mb: MailboxRecord,
                            getNewMail: (MailboxClass, MailboxRecord) -> Reply<seq<M>>)
    requires getNewMail(cls, mb).Raised?
    ensures Raising(cls, mbs + [mb], getNewMail) == Raising(cls, mbs, getNewMail) + [mb]
    ensures Delivered(cls, mbs + [mb], getNewMail) == Delivered(cls, mbs, getNewMail)
  {
    var all := mbs + [mb];
    assert all[..|all| - 1] == mbs && all[|all| - 1] == mb;
  }

  /** One more mailbox whose `get_new_mail` returned: it joins the delivered
      list with its messages, which add to the total and send their alerts. */
  lemma HandleStepReturned<M>(cls: MailboxClass, mbs: seq<MailboxRecord>, mb: MailboxRecord,
                              getNewMail: (MailboxClass, MailboxRecord) -> Reply<seq<M>>, ms: seq<M>)
    requires getNewMail(cls, mb) == Returned(ms)
    ensures Raising(cls, mbs + [mb], getNewMail) == Raising(cls, mbs, getNewMail)
    ensures var ds := Delivered(cls, mbs, getNewMail);
      && Delivered(cls, mbs + [mb], getNewMail) == ds + [(mb, ms)]
      && MessageTotal(ds + [(mb, ms)]) == MessageTotal(ds) + |ms|
      && AllAlerts(ds + [(mb, ms)]) == AllAlerts(ds) + NotificationAlerts(ms, mb.name)
  {
    var all := mbs + [mb];
    assert all[..|all| - 1] == mbs && all[|all| - 1] == mb;
    var ds := Delivered(cls, mbs, getNewMail);
    var ds' := ds + [(mb, ms)];
    assert ds'[..|ds'| - 1] == ds && ds'[|ds'| - 1] == (mb, ms);
  }

  /** Every mailbox either returned or raised: the two lists split the
      mailboxes, and each entry is what `get_new_mail` gave for it. */
  lemma {:induction false} DeliveredOrRaising<M>(cls: MailboxClass, mbs: seq<MailboxRecord>,
                                                 getNewMail: (MailboxClass, MailboxRecord) -> Reply<seq<M>>)
    ensures |Delivered(cls, mbs, getNewMail)| + |Raising(cls, mbs, getNewMail)| == |mbs|
    ensures forall d :: d in Delivered(cls, mbs, getNewMail) ==> d.0 in mbs && getNewMail(cls, d.0) == Returned(d.1)
    ensures forall mb :: mb in Raising(cls, mbs, getNewMail) <==> mb in mbs && getNewMail(cls, mb).Raised?
    decreases |mbs|
  {
    if mbs != [] {
      var init, mb := mbs[..|mbs| - 1], mbs[|mbs| - 1];
      DeliveredOrRaising(cls, init, getNewMail);
      SplitLast(mbs);
    }
  }

  /** Each mailbox with n messages sends between n and n + 1 alerts, so the
      alerts of a run are at least the messages and at most the messages plus
      the mailboxes. */
  lemma {:induction false} AlertsBound<M>(ds: seq<(MailboxRecord, seq<M>)>)
    ensures MessageTotal(ds) <= |AllAlerts(ds)| <= MessageTotal(ds) + |ds|
    decreases |ds|
  {
    if ds != [] {
      var d := ds[|ds| - 1];
      AlertsBound(ds[..|ds| - 1]);
      NotificationFanOut(d.1, d.0.name);
    }
  }

  /** Extending a prefix by one element. */
  lemma PrefixSnoc<T>(s: seq<T>, i: nat)
    requires i < |s|
    ensures s[..i + 1] == s[..i] + [s[i]]
  {
  }

  /** The `for mailbox in mailboxes` loop of `handle`: calls `get_new_mail`
      on each mailbox in order; a raise counts the mailbox as failed and the
      loop goes on; otherwise the mailbox counts as successful, its messages
      are added to the total and its notifications are sent. `visited` lists
      the mailboxes `get_new_mail` was called on; `alerts` the notifications
      sent. */
  method ProcessMailboxes<M>(cls: MailboxClass, mailboxes: seq<MailboxRecord>,
                             getNewMail: (MailboxClass, MailboxRecord) -> Reply<seq<M>>)
    returns (total: nat, successful: nat, failed: nat, visited: seq<MailboxRecord>, alerts: seq<Alert<M>>)
    ensures visited == mailboxes
    ensures successful + failed == |mailboxes|
    ensures successful == |Delivered(cls, mailboxes, getNewMail)|
    ensures failed == |Raising(cls, mailboxes, getNewMail)|
    ensures total == MessageTotal(Delivered(cls, mailboxes, getNewMail))
    ensures alerts == AllAlerts(Delivered(cls, mailboxes, getNewMail))
  {
    total, successful, failed := 0, 0, 0;
    visited, alerts := [], [];
    ghost var ds: seq<(MailboxRecord, seq<M>)> := [];
    for i := 0 to |mailboxes|
      invariant visited == mailboxes[..i]
      invariant ds == Delivered(cls, mailboxes[..i], getNewMail)
      invariant failed == |Raising(cls, mailboxes[..i], getNewMail)|
      invariant successful == |ds| && total == MessageTotal(ds) && alerts == AllAlerts(ds)
    {
      var mailbox := mailboxes[i];
      PrefixSnoc(mailboxes, i);
      visited := visited + [mailbox];
      var reply := getNewMail(cls, mailbox);
      if reply.Raised? {
        HandleStepRaised(cls, mailboxes[..i], mailbox, getNewMail);
        failed := failed + 1;
      } else {
        var messages := reply.value;
        HandleStepReturned(cls, mailboxes[..i], mailbox, getNewMail, messages);
        total := total + |messages|;
        successful := successful + 1;
        var sent := SendEmailNotification(messages, mailbox.name);
        alerts := alerts + sent;
        ds := ds + [(mailbox, messages)];
      }
    }
    assert mailboxes[..|mailboxes|] == mailboxes;
    DeliveredOrRaising(cls, mailboxes, getNewMail);
  }

  /** `handle`: selects the mailboxes, raising a `CommandError` before any
      mailbox is processed when there are none; runs the loop; and writes
      the warning exactly when some mailbox failed. */
  method Handle<M>(cls: MailboxClass, names: seq<string>, db: seq<MailboxRecord>,
                   getNewMail: (MailboxClass, MailboxRecord) -> Reply<seq<M>>)
    returns (r: Result<Report, CommandError>, visited: seq<MailboxRecord>, alerts: seq<Alert<M>>)
    ensures var sel := SelectMailboxes(db, names);
      && (r.Failure? <==> sel == [])
      && (r.Failure? ==> r.error == (if names == [] then NoActiveMailboxes else NoActiveMailboxesNamed(names))
                         && visited == [] && alerts == [])
      && (r.Success? ==>
            && visited == sel
            && r.value.successful + r.value.failed == |sel|
            && r.value.successful == |Delivered(cls, sel, getNewMail)|
            && r.value.failed == |Raising(cls, sel, getNewMail)|
            && r.value.totalMessages == MessageTotal(Delivered(cls, sel, getNewMail))
            && (r.value.warned <==> r.value.failed > 0)
            && alerts == AllAlerts(Delivered(cls, sel, getNewMail)))
  {
    var mailboxes := SelectMailboxes(db, names);
    if mailboxes == [] {
      r := Failure(if names == [] then NoActiveMailboxes else NoActiveMailboxesNamed(names));
      visited, alerts := [], [];
      return;
    }
    var total, successful, failed;
    total, successful, failed, visited, alerts := ProcessMailboxes(cls, mailboxes, getNewMail);
    r := Success(Report(total, successful, failed, failed > 0));
  }
}
