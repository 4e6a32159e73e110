/**
 * The portal workflow against an abstract browser. The browser is an oracle:
 * a `LoginView` says how the portal answers the login, and a `HostView` says,
 * for one visit to a host, which markers become visible and which commands
 * succeed. Every command the workflow issues is appended to a trace of
 * abstract actions. `log.Fatal` and `os.Exit` become a `Fatal` status.
 *
 * Each step of the workflow has a specification function returning an
 * `Effect` (the status and the actions issued), and a method of `Browser`
 * that performs the step on the trace and is proved to agree with it.
 */
module Portal {
  import opened Common

  /** Logical names of the page elements the workflow touches. */
  datatype Target =
    | UsernameField | PasswordField | LoginErrorSummary | LoginErrorMessage
    | FrontPageMarker | SearchBox | AddressCell | RowAction
    | FromTime | ToDate | ToTime | TicketId | ReasonInput | ComboSelected | SubmitButton
    | PasswordDisplay | CloseButton | PendingLabel

  datatype KeyCode = ArrowDown | Enter

  /** One command issued to the browser. */
  datatype Action =
    | Navigate(url: string)
    | Wait(target: Target)
    | Read(target: Target)
    | SetValue(target: Target, value: string)
    | SendKeys(target: Target, text: string)
    | Click(target: Target)
    | Key(code: KeyCode)

  /** Why the run was terminated. */
  datatype FatalCause =
    | LoginRejected(message: string)
    | FrontPageTimeout
    | NavigateFailed
    | CommandFailed(target: Target)

  datatype Status<+T> = Ok(value: T) | Fatal(cause: FatalCause)

  /** What a step does: its status and the actions it issued, in order. */
  datatype Effect<+T> = Effect(status: Status<T>, actions: seq<Action>)

  /** The run's configuration: portal URL, operator credentials, ticket id and the formatted date of tomorrow. */
  datatype Config = Config(url: string, username: string, password: string, ticketID: string, tomorrow: string)

  /** The default ticket id, meaning that no ticket was supplied. */
  const NoTicket: string := "noreason"
  const NineAM: string := "9:00 AM"
  /** The value copyPassword returns when the password cannot be read. */
  const CopyError: string := "copy password error"

  /** How the portal answers the login. */
  datatype LoginView = LoginView(
    formOk: bool,        // the login page loads and both fields take their input
    errorShown: bool,    // the login error summary appears within its bound
    errorText: string,   // the error message read (empty when the read fails)
    frontPage: bool)     // the home marker appears within 60 seconds

  /** What the portal shows, and which commands succeed, during one visit to a host. */
  datatype HostView = HostView(
    frontMarker: bool, frontClickOk: bool,
    frontNavigateOk: bool,  // the navigation gotoFrontPage falls back to, when the home marker does not show
    returnNavigateOk: bool, // the navigation back to the portal after a pending request or a submitted request
    searchOk: bool,
    rowVisible: bool, address: Option<string>, rowClickOk: bool,
    requestForm: bool, preApproval: bool, approved: bool, pending: bool,
    fromTimeOk: bool, toDateOk: bool, toTimeOk: bool, ticketOk: bool,
    reasonOk: bool, submitOk: bool,
    password: Option<string>)

  /** The four approval modes of the portal, and none of them. */
  datatype ApprovalState =
    RequestApprovalRequired | PreApprovalRequired | Approved | PendingApproval | Undetermined

  /** Whether the marker of state `s` is visible. */
  predicate Shows(v: HostView, s: ApprovalState)
  {
    match s
    case RequestApprovalRequired => v.requestForm
    case PreApprovalRequired => v.preApproval
    case Approved => v.approved
    case PendingApproval => v.pending
    case Undetermined => false
  }

  /**
   * The element each probe waits for. dropdownMenu probes only the four
   * states of `ProbeOrder`; the value given for `Undetermined` is never used.
   */
  function ProbeTarget(s: ApprovalState): Target
  {
    match s
    case RequestApprovalRequired => FromTime
    case PreApprovalRequired => ReasonInput
    case Approved => PasswordDisplay
    case PendingApproval | Undetermined => PendingLabel
  }

  /** The order in which dropdownMenu probes for the four approval states. */
  const ProbeOrder: seq<ApprovalState> := [RequestApprovalRequired, PreApprovalRequired, Approved, PendingApproval]

  /** A wait for the element of each state in `order`, in that order. */
  function WaitsFor(order: seq<ApprovalState>): (r: seq<Action>)
    ensures |r| == |order| && forall i :: 0 <= i < |order| ==> r[i] == Wait(ProbeTarget(order[i]))
  {
    if order == [] then [] else [Wait(ProbeTarget(order[0]))] + WaitsFor(order[1..])
  }

  /** The waits of the four probes, in probe order. */
  const ProbeWaits: seq<Action> := WaitsFor(ProbeOrder)

  /** How many probes run before the state is decided: the rank of the state in probe order. */
  function ProbesRun(s: ApprovalState): nat
  {
    match s
    case RequestApprovalRequired => 1
    case PreApprovalRequired => 2
    case Approved => 3
    case PendingApproval | Undetermined => 4
  }

  /**
   * The approval state the classifier settles on: the first state in probe
   * order whose marker is visible, or `Undetermined` when none is.
   */
  function Classify(v: HostView): (s: ApprovalState)
    ensures s == Undetermined <==> forall t :: !Shows(v, t)
    ensures s != Undetermined ==> Shows(v, s) && forall t :: ProbesRun(t) < ProbesRun(s) ==> !Shows(v, t)
  {
    if v.requestForm then assert Shows(v, RequestApprovalRequired); RequestApprovalRequired
    else if v.preApproval then assert Shows(v, PreApprovalRequired); PreApprovalRequired
    else if v.approved then assert Shows(v, Approved); Approved
    else if v.pending then assert Shows(v, PendingApproval); PendingApproval
    else Undetermined
  }

  /** A state's rank is its position in probe order, so the last probe run for a state waits for that state's own element. */
  lemma ProbeWaitsInRankOrder(s: ApprovalState)
    requires s != Undetermined
    ensures ProbesRun(s) <= |ProbeOrder| && ProbeOrder[ProbesRun(s) - 1] == s
    ensures ProbeWaits[ProbesRun(s) - 1] == Wait(ProbeTarget(s))
  {
  }

  /** The four waits, element by element. */
  lemma ProbeWaitsValue()
    ensures ProbeWaits == [Wait(FromTime), Wait(ReasonInput), Wait(PasswordDisplay), Wait(PendingLabel)]
  {
  }

  /** With at most one marker visible, the classifier reports exactly that state. */
  lemma ClassifyExclusive(v: HostView, s: ApprovalState)
    requires s != Undetermined && Shows(v, s)
    requires forall t :: t != s ==> !Shows(v, t)
    ensures Classify(v) == s
  {
  }

  /** Traces are built by appending batches; this regroups them. */
  lemma AppendAssoc(a: seq<Action>, b: seq<Action>, c: seq<Action>)
    ensures (a + b) + c == a + (b + c)
  {
  }

  /** `e` with the commands `t` issued before it. */
  function Prepend<T>(t: seq<Action>, e: Effect<T>): Effect<T>
  {
    Effect(e.status, t + e.actions)
  }

  /** The commands of the login page: open the portal, type the user name, the password and Enter. */
  function LoginBatch(c: Config): seq<Action>
  {
    [Navigate(c.url), Wait(UsernameField), SendKeys(UsernameField, c.username),
     Wait(PasswordField), SendKeys(PasswordField, c.password), SendKeys(PasswordField, "\n")]
  }

  /** loginCyberArk: drive the login page, probe for a login error, then wait for the home page. */
  function LoginEffect(c: Config, lv: LoginView): Effect<()>
  {
    if !lv.formOk then Effect(Fatal(CommandFailed(UsernameField)), LoginBatch(c))
    else if lv.errorShown then
      Effect(Fatal(LoginRejected(lv.errorText)), LoginBatch(c) + [Wait(LoginErrorSummary), Read(LoginErrorMessage)])
    else
      Effect(if lv.frontPage then Ok(()) else Fatal(FrontPageTimeout),
             LoginBatch(c) + [Wait(LoginErrorSummary), Wait(FrontPageMarker)])
  }

  /** The login succeeds iff the form can be driven, no error is shown and the home page appears; it always begins with the login page's commands. */
  lemma LoginOutcome(c: Config, lv: LoginView)
    ensures LoginEffect(c, lv).status.Ok? <==> lv.formOk && !lv.errorShown && lv.frontPage
    ensures lv.formOk && lv.errorShown ==> LoginEffect(c, lv).status == Fatal(LoginRejected(lv.errorText))
    ensures lv.formOk && !lv.errorShown && !lv.frontPage ==> LoginEffect(c, lv).status == Fatal(FrontPageTimeout)
    ensures LoginBatch(c) <= LoginEffect(c, lv).actions
  {
  }

  /** gotoCyberArk: navigate to the portal URL; `navigateOk` says whether this navigation succeeds, and a failed one is fatal. */
  function GotoPortalEffect(c: Config, navigateOk: bool): Effect<()>
  {
    Effect(if navigateOk then Ok(()) else Fatal(NavigateFailed), [Navigate(c.url)])
  }

  /** gotoFrontPage: click the home marker when it shows, otherwise fall back to navigating to the portal. */
  function FrontPageEffect(c: Config, v: HostView): Effect<()>
  {
    if v.frontMarker then
      Effect(if v.frontClickOk then Ok(()) else Fatal(CommandFailed(FrontPageMarker)),
             [Wait(FrontPageMarker), Click(FrontPageMarker)])
    else Prepend([Wait(FrontPageMarker)], GotoPortalEffect(c, v.frontNavigateOk))
  }

  /** The home page step fails only when its click or its fallback navigation fails. */
  lemma FrontPageOutcome(c: Config, v: HostView)
    ensures FrontPageEffect(c, v).status.Ok? <==> if v.frontMarker then v.frontClickOk else v.frontNavigateOk
    ensures FrontPageEffect(c, v).actions ==
              [Wait(FrontPageMarker), if v.frontMarker then Click(FrontPageMarker) else Navigate(c.url)]
  {
  }

  /** searchHost: type the host into the search box and press Enter; failure skips the host. */
  function SearchEffect(v: HostView, host: string): Effect<bool>
  {
    Effect(Ok(v.searchOk), [Wait(SearchBox), SetValue(SearchBox, host), SendKeys(SearchBox, "\n")])
  }

  /** selectHost: wait for the result row, read its address, open its menu. */
  function SelectEffect(v: HostView): Effect<Option<string>>
  {
    if !v.rowVisible then Effect(Ok(None), [Wait(AddressCell)])
    else match v.address
      case None => Effect(Fatal(CommandFailed(AddressCell)), [Wait(AddressCell), Read(AddressCell)])
      case Some(ip) =>
        Effect(if v.rowClickOk then Ok(Some(ip)) else Fatal(CommandFailed(RowAction)),
               [Wait(AddressCell), Read(AddressCell), Click(RowAction)])
  }

  /** A missing row skips the host; a row whose address cannot be read or whose menu cannot be opened is fatal. */
  lemma SelectOutcome(v: HostView)
    ensures SelectEffect(v).status == Ok(None) <==> !v.rowVisible
    ensures forall ip :: SelectEffect(v).status == Ok(Some(ip)) <==> v.rowVisible && v.address == Some(ip) && v.rowClickOk
    ensures SelectEffect(v).status.Fatal? <==> v.rowVisible && (v.address.None? || !v.rowClickOk)
  {
  }

  /** The reason selector: open it, move down twice, pick the highlighted entry, confirm. */
  const ReasonKeys: seq<Action> :=
    [Click(ReasonInput), Key(ArrowDown), Key(ArrowDown), Click(ComboSelected), Key(Enter)]

  /** The shared reason-selection routine; any failure in it is fatal. */
  function ReasonEffect(v: HostView): Effect<()>
  {
    Effect(if v.reasonOk then Ok(()) else Fatal(CommandFailed(ReasonInput)), ReasonKeys)
  }

  /** The approval-window and ticket fields of the request form, in the order they are filled. */
  function RequestFields(c: Config): seq<Action>
  {
    [SetValue(FromTime, NineAM), SetValue(ToDate, c.tomorrow), SetValue(ToTime, NineAM),
     Wait(ReasonInput), SetValue(TicketId, c.ticketID)]
  }

  /** Every command requestApproval issues when nothing fails: the fields, the reason, submit, back to the portal. */
  function RequestTrace(c: Config): seq<Action>
  {
    [SetValue(FromTime, NineAM), SetValue(ToDate, c.tomorrow), SetValue(ToTime, NineAM),
     Wait(ReasonInput), SetValue(TicketId, c.ticketID),
     Click(ReasonInput), Key(ArrowDown), Key(ArrowDown), Click(ComboSelected), Key(Enter),
     Click(SubmitButton), Navigate(c.url)]
  }

  /**
   * requestApproval: the commands of `RequestTrace` up to and including the
   * first one that fails, which stops the run; when none fails the answer is false.
   */
  function RequestApprovalEffect(c: Config, v: HostView): Effect<bool>
  {
    var t := RequestTrace(c);
    if !v.fromTimeOk then Effect(Fatal(CommandFailed(FromTime)), t[..1])
    else if !v.toDateOk then Effect(Fatal(CommandFailed(ToDate)), t[..2])
    else if !v.toTimeOk then Effect(Fatal(CommandFailed(ToTime)), t[..3])
    else if !v.ticketOk then Effect(Fatal(CommandFailed(TicketId)), t[..5])
    else if !v.reasonOk then Effect(Fatal(CommandFailed(ReasonInput)), t[..10])
    else if !v.submitOk then Effect(Fatal(CommandFailed(SubmitButton)), t[..11])
    else Effect(if v.returnNavigateOk then Ok(false) else Fatal(NavigateFailed), t)
  }

  /** The pre-approval action: pick the reason and submit. */
  function PreApprovalEffect(v: HostView): Effect<bool>
  {
    if !v.reasonOk then Effect(Fatal(CommandFailed(ReasonInput)), ReasonKeys)
    else Effect(if v.submitOk then Ok(true) else Fatal(CommandFailed(SubmitButton)), ReasonKeys + [Click(SubmitButton)])
  }

  /** The pending action: return to the portal. */
  function PendingEffect(c: Config, v: HostView): Effect<bool>
  {
    Effect(if v.returnNavigateOk then Ok(false) else Fatal(NavigateFailed), [Navigate(c.url)])
  }

  /** dropdownMenu: the four probes in order; the first marker that shows decides what is done. */
  function DropdownEffect(c: Config, v: HostView): Effect<bool>
  {
    if v.requestForm then
      Prepend(ProbeWaits[..1], if c.ticketID == NoTicket then Effect(Ok(false), []) else RequestApprovalEffect(c, v))
    else if v.preApproval then Prepend(ProbeWaits[..2], PreApprovalEffect(v))
    else if v.approved then Effect(Ok(true), ProbeWaits[..3])
    else if v.pending then Prepend(ProbeWaits, PendingEffect(c, v))
    else Effect(Ok(false), ProbeWaits)
  }

  /** The probes run in probe order, and exactly as many of them as it takes to decide the state. */
  lemma DropdownProbesInOrder(c: Config, v: HostView)
    ensures var n := ProbesRun(Classify(v));
            n <= |DropdownEffect(c, v).actions| && DropdownEffect(c, v).actions[..n] == ProbeWaits[..n]
  {
  }

  /**
   * dropdownMenu answers true only for the pre-approval and approved states;
   * a fatal stop can only come from a path that drives the form or navigates.
   */
  lemma DropdownResult(c: Config, v: HostView)
    ensures var d := DropdownEffect(c, v);
            d.status.Ok? ==> (d.status.value <==> Classify(v) == PreApprovalRequired || Classify(v) == Approved)
    ensures var d := DropdownEffect(c, v);
            d.status.Fatal? ==>
              (Classify(v) == RequestApprovalRequired && c.ticketID != NoTicket) ||
              Classify(v) == PreApprovalRequired || Classify(v) == PendingApproval
    ensures Classify(v) == Approved ==> DropdownEffect(c, v) == Effect(Ok(true), ProbeWaits[..3])
    ensures Classify(v) == Undetermined ==> DropdownEffect(c, v) == Effect(Ok(false), ProbeWaits)
  {
  }

  /** Without a ticket, a host that needs a request is skipped: nothing is set and nothing is submitted. */
  lemma TicketSentinel(c: Config, v: HostView)
    requires Classify(v) == RequestApprovalRequired && c.ticketID == NoTicket
    ensures DropdownEffect(c, v) == Effect(Ok(false), [Wait(FromTime)])
  {
  }

  /**
   * With a ticket, the request form is filled and submitted in a fixed order and
   * the browser returns to the portal; the answer is never true, and any failing
   * command stops the run.
   */
  lemma RequestSubmission(c: Config, v: HostView)
    requires Classify(v) == RequestApprovalRequired && c.ticketID != NoTicket
    ensures DropdownEffect(c, v).status != Ok(true)
    ensures DropdownEffect(c, v).status.Ok? <==>
              v.fromTimeOk && v.toDateOk && v.toTimeOk && v.ticketOk && v.reasonOk && v.submitOk && v.returnNavigateOk
    ensures DropdownEffect(c, v).status.Ok? ==>
              DropdownEffect(c, v).actions ==
                [Wait(FromTime)] + RequestFields(c) + ReasonKeys + [Click(SubmitButton), Navigate(c.url)]
  {
  }

  /** A pre-approval host gets the reason selected and the form submitted, and is then read at once. */
  lemma PreApprovalPath(c: Config, v: HostView)
    requires Classify(v) == PreApprovalRequired
    ensures DropdownEffect(c, v).status == Ok(true) <==> v.reasonOk && v.submitOk
    ensures DropdownEffect(c, v).status.Fatal? <==> !(v.reasonOk && v.submitOk)
    ensures DropdownEffect(c, v).status.Ok? ==>
              DropdownEffect(c, v).actions == ProbeWaits[..2] + ReasonKeys + [Click(SubmitButton)]
  {
  }

  /** A pending host sends the browser back to the portal and is skipped. */
  lemma PendingPath(c: Config, v: HostView)
    requires Classify(v) == PendingApproval
    ensures DropdownEffect(c, v).actions == ProbeWaits + [Navigate(c.url)]
    ensures DropdownEffect(c, v).status == (if v.returnNavigateOk then Ok(false) else Fatal(NavigateFailed))
  {
  }

  /** copyPassword: read the password, or the error sentinel, and always click Close afterwards. */
  function CopyPasswordEffect(v: HostView): Effect<string>
  {
    Effect(Ok(match v.password case Some(p) => p case None => CopyError),
           [Read(PasswordDisplay), Click(CloseButton)])
  }

  /** The Close click is issued whether or not the read succeeded, and it is the last command. */
  lemma CopyPasswordCloses(v: HostView)
    ensures var e := CopyPasswordEffect(v);
            e.status.Ok? && |e.actions| == 2 && e.actions[0] == Read(PasswordDisplay) &&
            e.actions[1] == Click(CloseButton)
    ensures v.password.None? ==> CopyPasswordEffect(v).status == Ok(CopyError)
    ensures forall p :: v.password == Some(p) ==> CopyPasswordEffect(v).status == Ok(p)
  {
  }

  /** The commands that only the login and copyPassword issue. */
  predicate Avoids(t: seq<Action>)
  {
    Wait(UsernameField) !in t && Click(CloseButton) !in t
  }

  /** Neither the login page nor the Close button is touched by the steps between them. */
  lemma StepsAvoid(c: Config, v: HostView)
    ensures Avoids(FrontPageEffect(c, v).actions) && Avoids(SelectEffect(v).actions) && Avoids(DropdownEffect(c, v).actions)
    ensures Wait(UsernameField) !in CopyPasswordEffect(v).actions
  {
    ProbeWaitsValue();
    assert Avoids(RequestTrace(c));
    assert Avoids(ProbeWaits);
  }

  /** The browser session: the commands issued so far. */
  class Browser {
    const config: Config
    var trace: seq<Action>

    constructor (c: Config)
      ensures config == c && trace == []
    {
      config := c;
      trace := [];
    }

    /** Issues a batch of commands. */
    method Send(batch: seq<Action>)
      modifies this
      ensures trace == old(trace) + batch
    {
      trace := trace + batch;
    }

    method LoginCyberArk(lv: LoginView) returns (s: Status<()>)
      modifies this
      ensures s == LoginEffect(config, lv).status
      ensures trace == old(trace) + LoginEffect(config, lv).actions
    {
      Send(LoginBatch(config));
      if !lv.formOk {
        return Fatal(CommandFailed(UsernameField));
      }
      Send([Wait(LoginErrorSummary)]);
      if lv.errorShown {
        Send([Read(LoginErrorMessage)]);
        return Fatal(LoginRejected(lv.errorText));
      }
      Send([Wait(FrontPageMarker)]);
      if !lv.frontPage {
        return Fatal(FrontPageTimeout);
      }
      return Ok(());
    }

    method GotoCyberArk(navigateOk: bool) returns (s: Status<()>)
      modifies this
      ensures s == GotoPortalEffect(config, navigateOk).status
      ensures trace == old(trace) + GotoPortalEffect(config, navigateOk).actions
    {
      Send([Navigate(config.url)]);
      if !navigateOk {
        return Fatal(NavigateFailed);
      }
      return Ok(());
    }

    method GotoFrontPage(v: HostView) returns (s: Status<()>)
      modifies this
      ensures s == FrontPageEffect(config, v).status
      ensures trace == old(trace) + FrontPageEffect(config, v).actions
    {
      Send([Wait(FrontPageMarker)]);
      if !v.frontMarker {
        s := GotoCyberArk(v.frontNavigateOk);
        return;
      }
      Send([Click(FrontPageMarker)]);
      if !v.frontClickOk {
        return Fatal(CommandFailed(FrontPageMarker));
      }
      return Ok(());
    }

    method SearchHost(v: HostView, host: string) returns (found: bool)
      modifies this
      ensures Ok(found) == SearchEffect(v, host).status
      ensures trace == old(trace) + SearchEffect(v, host).actions
    {
      Send([Wait(SearchBox), SetValue(SearchBox, host), SendKeys(SearchBox, "\n")]);
      found := v.searchOk;
    }

    method SelectHost(v: HostView) returns (s: Status<Option<string>>)
      modifies this
      ensures s == SelectEffect(v).status
      ensures trace == old(trace) + SelectEffect(v).actions
    {
      Send([Wait(AddressCell)]);
      if !v.rowVisible {
        return Ok(None);
      }
      Send([Read(AddressCell)]);
      if v.address.None? {
        return Fatal(CommandFailed(AddressCell));
      }
      var ip := v.address.value;
      Send([Click(RowAction)]);
      if !v.rowClickOk {
        return Fatal(CommandFailed(RowAction));
      }
      return Ok(Some(ip));
    }

    method SelectReason(v: HostView) returns (s: Status<()>)
      modifies this
      ensures s == ReasonEffect(v).status
      ensures trace == old(trace) + ReasonEffect(v).actions
    {
      Send(ReasonKeys);
      if !v.reasonOk {
        return Fatal(CommandFailed(ReasonInput));
      }
      return Ok(());
    }

    method RequestApproval(v: HostView) returns (s: Status<bool>)
      modifies this
      ensures s == RequestApprovalEffect(config, v).status
      ensures trace == old(trace) + RequestApprovalEffect(config, v).actions
    {
      ghost var t := RequestTrace(config);
      Send([SetValue(FromTime, NineAM)]);
      assert trace == old(trace) + t[..1];
      if !v.fromTimeOk {
        return Fatal(CommandFailed(FromTime));
      }
      Send([SetValue(ToDate, config.tomorrow)]);
      assert trace == old(trace) + t[..2];
      if !v.toDateOk {
        return Fatal(CommandFailed(ToDate));
      }
      Send([SetValue(ToTime, NineAM)]);
      assert trace == old(trace) + t[..3];
      if !v.toTimeOk {
        return Fatal(CommandFailed(ToTime));
      }
      // The outcome of this wait is overwritten before it is looked at.
      Send([Wait(ReasonInput)]);
      Send([SetValue(TicketId, config.ticketID)]);
      assert trace == old(trace) + t[..5];
      if !v.ticketOk {
        return Fatal(CommandFailed(TicketId));
      }
      var r := SelectReason(v);
      assert trace == old(trace) + t[..10];
      if r.Fatal? {
        return Fatal(r.cause);
      }
      Send([Click(SubmitButton)]);
      assert trace == old(trace) + t[..11];
      if !v.submitOk {
        return Fatal(CommandFailed(SubmitButton));
      }
      var g := GotoCyberArk(v.returnNavigateOk);
      assert trace == old(trace) + t;
      if g.Fatal? {
        return Fatal(g.cause);
      }
      return Ok(false);
    }

    method DropdownMenu(v: HostView) returns (s: Status<bool>)
      modifies this
      ensures s == DropdownEffect(config, v).status
      ensures trace == old(trace) + DropdownEffect(config, v).actions
    {
      ProbeWaitsValue();
      Send([Wait(FromTime)]);
      assert trace == old(trace) + ProbeWaits[..1];
      if v.requestForm {
        if config.ticketID == NoTicket {
          return Ok(false);
        }
        s := RequestApproval(v);
        return;
      }
      Send([Wait(ReasonInput)]);
      assert trace == old(trace) + ProbeWaits[..2];
      if v.preApproval {
        s := PreApprove(v);
        return;
      }
      Send([Wait(PasswordDisplay)]);
      assert trace == old(trace) + ProbeWaits[..3];
      if v.approved {
        return Ok(true);
      }
      Send([Wait(PendingLabel)]);
      assert trace == old(trace) + ProbeWaits;
      if v.pending {
        s := WaitingApproval(v);
        return;
      }
      return Ok(false);
    }

    method PreApprove(v: HostView) returns (s: Status<bool>)
      modifies this
      ensures s == PreApprovalEffect(v).status
      ensures trace == old(trace) + PreApprovalEffect(v).actions
    {
      var r := SelectReason(v);
      if r.Fatal? {
        return Fatal(r.cause);
      }
      Send([Click(SubmitButton)]);
      if !v.submitOk {
        return Fatal(CommandFailed(SubmitButton));
      }
      return Ok(true);
    }

    method WaitingApproval(v: HostView) returns (s: Status<bool>)
      modifies this
      ensures s == PendingEffect(config, v).status
      ensures trace == old(trace) + PendingEffect(config, v).actions
    {
      var g := GotoCyberArk(v.returnNavigateOk);
      if g.Fatal? {
        return Fatal(g.cause);
      }
      return Ok(false);
    }

    method CopyPassword(v: HostView) returns (password: string)
      modifies this
      ensures Ok(password) == CopyPasswordEffect(v).status
      ensures trace == old(trace) + CopyPasswordEffect(v).actions
    {
      Send([Read(PasswordDisplay)]);
      if v.password.None? {
        password := CopyError;
      } else {
        password := v.password.value;
      }
      Send([Click(CloseButton)]);
    }
  }
}
