/**
 * The run loop of `main`: each line of the host file is filtered; the portal
 * session is opened at the first accepted host; every accepted host goes
 * through front page, search, select, approval classifier and credential
 * read; a line is written to the inventory for each credential read; and at
 * the end the inventory file is kept or deleted.
 */
module RunLoop {
  import opened Common
  import opened Hostname
  import opened Inventory
  import opened Portal

  /** The initial value of the loop's `credential` variable; it changes only when copyPassword runs. */
  const Empty: string := "empty"

  /** How far one accepted host got without a fatal stop. */
  datatype HostOutcome =
    | Skipped                                   // search or select found nothing
    | Located(ip: string)                       // the row was selected, the classifier said no
    | Extracted(ip: string, credential: string) // copyPassword ran and returned `credential`

  /** The stages of a host visit, in the order the loop body runs them. */
  datatype Stage = AtFrontPage | AtSearch | AtSelect | AtDropdown(ip: string) | AtCopy(ip: string)

  /** The number of stages left after `s`. */
  function Remaining(s: Stage): nat
  {
    match s
    case AtFrontPage => 4
    case AtSearch => 3
    case AtSelect => 2
    case AtDropdown(_) => 1
    case AtCopy(_) => 0
  }

  /**
   * The loop body for one accepted host (lines 109-131), from stage `s` on:
   * each stage issues its commands and either stops the visit or hands over
   * to the next.
   */
  function Visit(c: Config, v: HostView, h: string, s: Stage): Effect<HostOutcome>
    decreases Remaining(s)
  {
    match s
    case AtFrontPage =>
      var front := FrontPageEffect(c, v);
      if front.status.Fatal? then Effect(Fatal(front.status.cause), front.actions)
      else Prepend(front.actions, Visit(c, v, h, AtSearch))
    case AtSearch =>
      Prepend(SearchEffect(v, h).actions, if !v.searchOk then Effect(Ok(Skipped), []) else Visit(c, v, h, AtSelect))
    case AtSelect =>
      var sel := SelectEffect(v);
      (match sel.status
       case Fatal(why) => Effect(Fatal(why), sel.actions)
       case Ok(None) => Effect(Ok(Skipped), sel.actions)
       case Ok(Some(ip)) => Prepend(sel.actions, Visit(c, v, h, AtDropdown(ip))))
    case AtDropdown(ip) =>
      var drop := DropdownEffect(c, v);
      (match drop.status
       case Fatal(why) => Effect(Fatal(why), drop.actions)
       case Ok(granted) =>
         if !granted then Effect(Ok(Located(ip)), drop.actions) else Prepend(drop.actions, Visit(c, v, h, AtCopy(ip))))
    case AtCopy(ip) =>
      var copy := CopyPasswordEffect(v);
      Effect(Ok(Extracted(ip, copy.status.value)), copy.actions)
  }

  /** The whole visit of an accepted host. */
  function HostEffect(c: Config, v: HostView, h: string): Effect<HostOutcome>
  {
    Visit(c, v, h, AtFrontPage)
  }

  /** The shape every stage of a host visit has: no login, and a Close click exactly when a credential was read, as the last command. */
  predicate VisitShape(e: Effect<HostOutcome>)
  {
    && Wait(UsernameField) !in e.actions
    && (Click(CloseButton) in e.actions <==> e.status.Ok? && e.status.value.Extracted?)
    && (e.status.Ok? && e.status.value.Extracted? ==> |e.actions| > 0 && e.actions[|e.actions| - 1] == Click(CloseButton))
  }

  lemma PrependShape(t: seq<Action>, e: Effect<HostOutcome>)
    requires VisitShape(e) && Avoids(t)
    ensures VisitShape(Prepend(t, e))
  {
    if e.status.Ok? && e.status.value.Extracted? {
      assert (t + e.actions)[|t + e.actions| - 1] == e.actions[|e.actions| - 1];
    }
  }

  /** Every stage of a visit, from any stage on, has the shape of a host visit. */
  lemma {:induction false} VisitFromShape(c: Config, v: HostView, h: string, s: Stage)
    ensures VisitShape(Visit(c, v, h, s))
    decreases Remaining(s)
  {
    StepsAvoid(c, v);
    match s
    case AtFrontPage =>
      if FrontPageEffect(c, v).status.Ok? {
        VisitFromShape(c, v, h, AtSearch);
        PrependShape(FrontPageEffect(c, v).actions, Visit(c, v, h, AtSearch));
      }
    case AtSearch =>
      assert Avoids(SearchEffect(v, h).actions);
      if v.searchOk {
        VisitFromShape(c, v, h, AtSelect);
        PrependShape(SearchEffect(v, h).actions, Visit(c, v, h, AtSelect));
      } else {
        PrependShape(SearchEffect(v, h).actions, Effect(Ok(Skipped), []));
      }
    case AtSelect =>
      if SelectEffect(v).status.Ok? && SelectEffect(v).status.value.Some? {
        var ip := SelectEffect(v).status.value.value;
        VisitFromShape(c, v, h, AtDropdown(ip));
        PrependShape(SelectEffect(v).actions, Visit(c, v, h, AtDropdown(ip)));
      }
    case AtDropdown(ip) =>
      if DropdownEffect(c, v).status == Ok(true) {
        VisitFromShape(c, v, h, AtCopy(ip));
        PrependShape(DropdownEffect(c, v).actions, Visit(c, v, h, AtCopy(ip)));
      }
    case AtCopy(ip) =>
  }

  /**
   * A host visit never opens the login page; copyPassword, and with it the
   * Close click, happens exactly when a credential is read, and the Close
   * click is then the last command of the visit.
   */
  lemma HostEffectShape(c: Config, v: HostView, h: string)
    ensures VisitShape(HostEffect(c, v, h))
  {
    VisitFromShape(c, v, h, AtFrontPage);
  }

  /** copyPassword runs only when the front page, search, select and the dropdown menu all succeed, and its result is what the visit reports. */
  lemma ExtractedOnlyWhenGranted(c: Config, v: HostView, h: string, ip: string, cred: string)
    requires HostEffect(c, v, h).status == Ok(Extracted(ip, cred))
    ensures FrontPageEffect(c, v).status.Ok? && v.searchOk && v.rowVisible
    ensures v.address == Some(ip) && v.rowClickOk && DropdownEffect(c, v).status == Ok(true)
    ensures Ok(cred) == CopyPasswordEffect(v).status
  {
    assert FrontPageEffect(c, v).status.Ok?;
    assert Visit(c, v, h, AtSearch).status == Ok(Extracted(ip, cred));
    assert v.searchOk;
    assert Visit(c, v, h, AtSelect).status == Ok(Extracted(ip, cred));
    SelectOutcome(v);
    var sel := SelectEffect(v).status;
    assert sel.Ok? && sel.value.Some?;
    var found := sel.value.value;
    assert Visit(c, v, h, AtDropdown(found)).status == Ok(Extracted(ip, cred));
    assert DropdownEffect(c, v).status == Ok(true);
    assert Visit(c, v, h, AtCopy(found)).status == Ok(Extracted(ip, cred));
  }

  /** Conversely, a visit without a fatal stop whose row shows an address and whose classifier grants access reads the credential. */
  lemma GrantedIsExtracted(c: Config, v: HostView, h: string)
    requires HostEffect(c, v, h).status.Ok?
    ensures v.searchOk && v.rowVisible && v.address.Some? &&
            (Classify(v) == PreApprovalRequired || Classify(v) == Approved) ==>
              HostEffect(c, v, h).status == Ok(Extracted(v.address.value, CopyPasswordEffect(v).status.value))
  {
    if v.searchOk && v.rowVisible && v.address.Some? && (Classify(v) == PreApprovalRequired || Classify(v) == Approved) {
      var ip := v.address.value;
      assert FrontPageEffect(c, v).status.Ok?;
      assert HostEffect(c, v, h).status == Visit(c, v, h, AtSearch).status == Visit(c, v, h, AtSelect).status;
      SelectOutcome(v);
      assert v.rowClickOk;
      assert Visit(c, v, h, AtSelect).status == Visit(c, v, h, AtDropdown(ip)).status;
      DropdownResult(c, v);
      assert DropdownEffect(c, v).status == Ok(true);
      assert Visit(c, v, h, AtDropdown(ip)).status == Visit(c, v, h, AtCopy(ip)).status;
    }
  }

  /**
   * The two navigations of a visit are separate commands: after the home page
   * fallback has navigated to the portal, a pending host navigates back again,
   * and only that second navigation decides whether the run stops.
   */
  lemma FallbackThenPending(c: Config, v: HostView, h: string)
    requires !v.frontMarker && v.frontNavigateOk
    requires v.searchOk && v.rowVisible && v.address.Some? && v.rowClickOk
    requires Classify(v) == PendingApproval
    ensures HostEffect(c, v, h).status ==
              if v.returnNavigateOk then Ok(Located(v.address.value)) else Fatal(NavigateFailed)
    ensures HostEffect(c, v, h).actions ==
              [Wait(FrontPageMarker), Navigate(c.url)] + (SearchEffect(v, h).actions +
              (SelectEffect(v).actions + (ProbeWaits + [Navigate(c.url)])))
  {
    var ip := v.address.value;
    PendingPath(c, v);
    assert SelectEffect(v).status == Ok(Some(ip));
    assert Visit(c, v, h, AtDropdown(ip)) ==
             Effect(if v.returnNavigateOk then Ok(Located(ip)) else Fatal(NavigateFailed), ProbeWaits + [Navigate(c.url)]);
  }

  /** What one line of the host file leads to: nothing, or a visit of the host it names. */
  datatype LineVisit = Ignored | Visited(host: string, effect: Effect<HostOutcome>)

  /** The filter, then the visit; the visit does not depend on the loop's variables. */
  function VisitLine(c: Config, line: string, v: HostView): LineVisit
  {
    match ValidHost(line)
    case None => Ignored
    case Some(h) => Visited(h, HostEffect(c, v, h))
  }

  /** The visits of all lines; `pages[i]` is what the portal shows while line `i` is handled. */
  function Visits(c: Config, lines: seq<string>, pages: seq<HostView>): seq<LineVisit>
    requires |lines| == |pages|
  {
    seq(|lines|, i requires 0 <= i < |lines| => VisitLine(c, lines[i], pages[i]))
  }

  /** A credential read for a host; an entry of the inventory when the read did not fail. */
  datatype Extraction = Extraction(host: string, ip: string, credential: string)

  /** The loop's variables between two lines, with the browser's trace and the fatal stop, if any. */
  datatype RunState = RunState(
    loggedIn: bool, credential: string, ipaddr: string,
    inventory: seq<Extraction>, trace: seq<Action>, fatal: Option<FatalCause>)

  const Init: RunState := RunState(false, Empty, "", [], [], None)

  /** The loop's variables after a visit `e` of host `h`, made while logged in. */
  function Record(st: RunState, h: string, e: Effect<HostOutcome>): RunState
  {
    var st' := st.(loggedIn := true, trace := st.trace + e.actions);
    match e.status
    case Fatal(why) => st'.(fatal := Some(why))
    case Ok(Skipped) => st'
    case Ok(Located(ip)) => st'.(ipaddr := ip)
    case Ok(Extracted(ip, cred)) =>
      st'.(ipaddr := ip, credential := cred,
           inventory := st.inventory + (if cred != CopyError then [Extraction(h, ip, cred)] else []))
  }

  /** One iteration of the loop; `login` is what loginCyberArk does when it runs. */
  function StepLine(login: Effect<()>, st: RunState, lv: LineVisit): RunState
  {
    match lv
    case Ignored => st
    case Visited(h, e) =>
      if st.loggedIn then Record(st, h, e)
      else if login.status.Fatal? then st.(trace := st.trace + login.actions, fatal := Some(login.status.cause))
      else Record(st.(trace := st.trace + login.actions), h, e)
  }

  /** The loop over the remaining lines, which ends early at a fatal stop. */
  function RunVisits(login: Effect<()>, st: RunState, vs: seq<LineVisit>): RunState
    decreases |vs|
  {
    if |vs| == 0 || st.fatal.Some? then st
    else RunVisits(login, StepLine(login, st, vs[0]), vs[1..])
  }

  /** The text written for the inventory's entries: one line per entry, in order. */
  function Render(es: seq<Extraction>): (r: seq<string>)
    ensures |r| == |es|
    ensures forall i :: 0 <= i < |es| ==> r[i] == InventoryLine(es[i].host, es[i].ip, es[i].credential)
  {
    if es == [] then [] else [InventoryLine(es[0].host, es[0].ip, es[0].credential)] + Render(es[1..])
  }

  /** What a run leaves behind: the commands issued, the inventory file's lines, whether the file is kept, and the fatal stop. */
  datatype RunResult = RunResult(trace: seq<Action>, file: seq<string>, kept: bool, fatal: Option<FatalCause>)

  /**
   * The whole run. The file is deleted only on normal completion with
   * `credential` still `"empty"`; a fatal stop exits without deleting it.
   */
  function Run(c: Config, lv: LoginView, lines: seq<string>, pages: seq<HostView>): RunResult
    requires |lines| == |pages|
  {
    var st := RunVisits(LoginEffect(c, lv), Init, Visits(c, lines, pages));
    RunResult(st.trace, Header + Render(st.inventory), st.fatal.Some? || st.credential != Empty, st.fatal)
  }

  // ---------------------------------------------------------------------------
  // A reference description of what a run without a fatal stop extracts.

  /**
   * The credential read for a line, stated from the page alone: the line names
   * a host, the search and the result row succeed, and the classifier finds
   * the pre-approval or approved state.
   */
  function ExtractionOf(line: string, v: HostView): Option<Extraction>
  {
    match ValidHost(line)
    case None => None
    case Some(h) =>
      if v.searchOk && v.rowVisible && v.address.Some? &&
         (Classify(v) == PreApprovalRequired || Classify(v) == Approved)
      then Some(Extraction(h, v.address.value, if v.password.Some? then v.password.value else CopyError))
      else None
  }

  function OptionToSeq<T>(o: Option<T>): seq<T>
  {
    match o
    case None => []
    case Some(x) => [x]
  }

  /** The credentials read over all lines, in file order. */
  function Extractions(lines: seq<string>, pages: seq<HostView>): seq<Extraction>
    requires |lines| == |pages|
    decreases |lines|
  {
    if |lines| == 0 then []
    else OptionToSeq(ExtractionOf(lines[0], pages[0])) + Extractions(lines[1..], pages[1..])
  }

  /** The inventory lines for these reads: one per read that did not fail, in the same order. */
  function ExpectedLines(xs: seq<Extraction>): seq<string>
  {
    if xs == [] then []
    else (if xs[0].credential != CopyError then [InventoryLine(xs[0].host, xs[0].ip, xs[0].credential)] else [])
         + ExpectedLines(xs[1..])
  }

  /** The reads that did not fail, in the same order. */
  function Successful(xs: seq<Extraction>): seq<Extraction>
  {
    if xs == [] then [] else (if xs[0].credential != CopyError then [xs[0]] else []) + Successful(xs[1..])
  }

  lemma ExtractionsAssoc(a: seq<Extraction>, b: seq<Extraction>, c: seq<Extraction>)
    ensures (a + b) + c == a + (b + c)
  {
  }

  lemma {:induction false} SuccessfulAppend(a: seq<Extraction>, b: seq<Extraction>)
    ensures Successful(a + b) == Successful(a) + Successful(b)
  {
    if a == [] {
      assert a + b == b;
    } else {
      var head: seq<Extraction> := if a[0].credential != CopyError then [a[0]] else [];
      assert (a + b)[0] == a[0];
      assert (a + b)[1..] == a[1..] + b;
      assert Successful(a + b) == head + Successful(a[1..] + b);
      assert Successful(a) == head + Successful(a[1..]);
      SuccessfulAppend(a[1..], b);
      ExtractionsAssoc(head, Successful(a[1..]), Successful(b));
    }
  }

  /** The entries the loop writes, rendered, are the reference's lines. */
  lemma {:induction false} RenderSuccessful(xs: seq<Extraction>)
    ensures Render(Successful(xs)) == ExpectedLines(xs)
  {
    if xs != [] {
      var head: seq<Extraction> := if xs[0].credential != CopyError then [xs[0]] else [];
      RenderSuccessful(xs[1..]);
      assert Successful(xs) == head + Successful(xs[1..]);
      RenderAppend(head, Successful(xs[1..]));
    }
  }

  lemma {:induction false} RenderAppend(a: seq<Extraction>, b: seq<Extraction>)
    ensures Render(a + b) == Render(a) + Render(b)
  {
    if a == [] {
      assert a + b == b;
    } else {
      assert (a + b)[0] == a[0];
      assert (a + b)[1..] == a[1..] + b;
      RenderAppend(a[1..], b);
    }
  }

  /** Reads that all failed write no line. */
  lemma {:induction false} SuccessfulAllFailed(xs: seq<Extraction>)
    requires forall i :: 0 <= i < |xs| ==> xs[i].credential == CopyError
    ensures Successful(xs) == []
  {
    if xs != [] {
      SuccessfulAllFailed(xs[1..]);
    }
  }

  /** The read a visit reports. */
  function CredentialRead(lv: LineVisit): seq<Extraction>
  {
    if lv.Visited? && lv.effect.status.Ok? && lv.effect.status.value.Extracted?
    then [Extraction(lv.host, lv.effect.status.value.ip, lv.effect.status.value.credential)]
    else []
  }

  function CredentialsRead(vs: seq<LineVisit>): seq<Extraction>
    decreases |vs|
  {
    if vs == [] then [] else CredentialRead(vs[0]) + CredentialsRead(vs[1..])
  }

  /** A visit without a fatal stop reads exactly the reference's credential for its line. */
  lemma VisitReadsReference(c: Config, line: string, v: HostView)
    requires VisitLine(c, line, v).Visited? ==> VisitLine(c, line, v).effect.status.Ok?
    ensures CredentialRead(VisitLine(c, line, v)) == OptionToSeq(ExtractionOf(line, v))
  {
    match ValidHost(line)
    case None =>
    case Some(h) =>
      var e := HostEffect(c, v, h);
      if e.status.value.Extracted? {
        ExtractedOnlyWhenGranted(c, v, h, e.status.value.ip, e.status.value.credential);
        DropdownResult(c, v);
      } else {
        GrantedIsExtracted(c, v, h);
      }
  }

  /** Over a whole file whose visits have no fatal stop, each visit reads the reference's credential for its line. */
  lemma VisitsReadReference(c: Config, lines: seq<string>, pages: seq<HostView>)
    requires |lines| == |pages|
    requires forall i :: 0 <= i < |lines| && Visits(c, lines, pages)[i].Visited? ==> Visits(c, lines, pages)[i].effect.status.Ok?
    ensures forall i :: 0 <= i < |lines| ==> CredentialRead(Visits(c, lines, pages)[i]) == OptionToSeq(ExtractionOf(lines[i], pages[i]))
  {
    forall i | 0 <= i < |lines|
      ensures CredentialRead(Visits(c, lines, pages)[i]) == OptionToSeq(ExtractionOf(lines[i], pages[i]))
    {
      assert Visits(c, lines, pages)[i] == VisitLine(c, lines[i], pages[i]);
      VisitReadsReference(c, lines[i], pages[i]);
    }
  }

  /** Reads that agree line by line with the reference agree over the whole file. */
  lemma {:induction false} ReadAllReference(vs: seq<LineVisit>, lines: seq<string>, pages: seq<HostView>)
    requires |vs| == |lines| == |pages|
    requires forall i :: 0 <= i < |lines| ==> CredentialRead(vs[i]) == OptionToSeq(ExtractionOf(lines[i], pages[i]))
    ensures CredentialsRead(vs) == Extractions(lines, pages)
    decreases |lines|
  {
    if |lines| > 0 {
      assert CredentialRead(vs[0]) == OptionToSeq(ExtractionOf(lines[0], pages[0]));
      forall i | 0 <= i < |lines| - 1
        ensures CredentialRead(vs[1..][i]) == OptionToSeq(ExtractionOf(lines[1..][i], pages[1..][i]))
      {
        assert vs[1..][i] == vs[i + 1] && lines[1..][i] == lines[i + 1] && pages[1..][i] == pages[i + 1];
      }
      ReadAllReference(vs[1..], lines[1..], pages[1..]);
    }
  }

  /** One step without a fatal stop adds the inventory line of its read, and the read becomes `credential`. */
  lemma StepLineNonFatal(login: Effect<()>, st: RunState, lv: LineVisit)
    requires StepLine(login, st, lv).fatal.None?
    ensures var st' := StepLine(login, st, lv);
            && (lv.Visited? ==> lv.effect.status.Ok?)
            && st'.inventory == st.inventory + Successful(CredentialRead(lv))
            && st'.credential == (if CredentialRead(lv) == [] then st.credential else CredentialRead(lv)[0].credential)
  {
    if CredentialRead(lv) != [] {
      assert CredentialRead(lv)[1..] == [];
    }
  }

  lemma {:induction false} RunVisitsNonFatal(login: Effect<()>, st: RunState, vs: seq<LineVisit>)
    requires st.fatal.None?
    requires RunVisits(login, st, vs).fatal.None?
    ensures forall i :: 0 <= i < |vs| && vs[i].Visited? ==> vs[i].effect.status.Ok?
    ensures var r := RunVisits(login, st, vs);
            r.inventory == st.inventory + Successful(CredentialsRead(vs)) &&
            r.credential == (if CredentialsRead(vs) == [] then st.credential else CredentialsRead(vs)[|CredentialsRead(vs)| - 1].credential)
    decreases |vs|
  {
    if |vs| > 0 {
      var st1 := StepLine(login, st, vs[0]);
      assert RunVisits(login, st, vs) == RunVisits(login, st1, vs[1..]);
      StepLineNonFatal(login, st, vs[0]);
      RunVisitsNonFatal(login, st1, vs[1..]);
      SuccessfulAppend(CredentialRead(vs[0]), CredentialsRead(vs[1..]));
      var head, rest := CredentialRead(vs[0]), CredentialsRead(vs[1..]);
      assert CredentialsRead(vs) == head + rest;
      assert st1.inventory == st.inventory + Successful(head);
      ExtractionsAssoc(st.inventory, Successful(head), Successful(rest));
      if rest != [] {
        assert CredentialsRead(vs)[|CredentialsRead(vs)| - 1] == rest[|rest| - 1];
      }
      forall i | 0 <= i < |vs| && vs[i].Visited?
        ensures vs[i].effect.status.Ok?
      {
        if i > 0 { assert vs[i] == vs[1..][i - 1]; }
      }
    }
  }

  /** Without a fatal stop, the file is the header followed by one line per credential read, in file order. */
  lemma RunWritesExpectedLines(c: Config, lv: LoginView, lines: seq<string>, pages: seq<HostView>)
    requires |lines| == |pages|
    requires Run(c, lv, lines, pages).fatal.None?
    ensures Run(c, lv, lines, pages).file == Header + ExpectedLines(Extractions(lines, pages))
  {
    var st := RunVisits(LoginEffect(c, lv), Init, Visits(c, lines, pages));
    RunVisitsNonFatal(LoginEffect(c, lv), Init, Visits(c, lines, pages));
    VisitsReadReference(c, lines, pages);
    ReadAllReference(Visits(c, lines, pages), lines, pages);
    assert st.inventory == Successful(Extractions(lines, pages));
    RenderSuccessful(Extractions(lines, pages));
  }

  /**
   * The deletion rule: a completed run deletes the file iff `credential` is
   * still `"empty"`, that is iff no credential was read or the last one read
   * is literally the text `empty`; a fatal stop never deletes it.
   */
  lemma FileKeptRule(c: Config, lv: LoginView, lines: seq<string>, pages: seq<HostView>)
    requires |lines| == |pages|
    ensures var r := Run(c, lv, lines, pages);
            var xs := Extractions(lines, pages);
            r.fatal.None? ==> (r.kept <==> xs != [] && xs[|xs| - 1].credential != Empty)
    ensures Run(c, lv, lines, pages).fatal.Some? ==> Run(c, lv, lines, pages).kept
  {
    var st := RunVisits(LoginEffect(c, lv), Init, Visits(c, lines, pages));
    if st.fatal.None? {
      RunVisitsNonFatal(LoginEffect(c, lv), Init, Visits(c, lines, pages));
      VisitsReadReference(c, lines, pages);
      ReadAllReference(Visits(c, lines, pages), lines, pages);
      var xs := Extractions(lines, pages);
      assert st.credential == if xs == [] then Empty else xs[|xs| - 1].credential;
    }
  }

  /** A run whose reads all failed keeps a file that holds only the header. */
  lemma FailedReadsKeepHeaderOnly(c: Config, lv: LoginView, lines: seq<string>, pages: seq<HostView>)
    requires |lines| == |pages|
    requires Run(c, lv, lines, pages).fatal.None?
    requires Extractions(lines, pages) != []
    requires forall i :: 0 <= i < |Extractions(lines, pages)| ==> Extractions(lines, pages)[i].credential == CopyError
    ensures Run(c, lv, lines, pages).kept && Run(c, lv, lines, pages).file == Header
  {
    var st := RunVisits(LoginEffect(c, lv), Init, Visits(c, lines, pages));
    RunVisitsNonFatal(LoginEffect(c, lv), Init, Visits(c, lines, pages));
    VisitsReadReference(c, lines, pages);
    ReadAllReference(Visits(c, lines, pages), lines, pages);
    SuccessfulAllFailed(Extractions(lines, pages));
    assert st.inventory == [];
    var xs := Extractions(lines, pages);
    assert st.credential == CopyError == xs[|xs| - 1].credential;
  }

  /** Lines that name no host cause no portal action, no login and no inventory line, and the file is deleted. */
  lemma NoHostNoAction(c: Config, lv: LoginView, lines: seq<string>, pages: seq<HostView>)
    requires |lines| == |pages|
    requires forall i :: 0 <= i < |lines| ==> ValidHost(lines[i]).None?
    ensures Run(c, lv, lines, pages) == RunResult([], Header, false, None)
  {
    var vs := Visits(c, lines, pages);
    forall i | 0 <= i < |vs| ensures vs[i] == Ignored {
      assert vs[i] == VisitLine(c, lines[i], pages[i]);
    }
    IgnoredLines(LoginEffect(c, lv), Init, vs);
  }

  lemma {:induction false} IgnoredLines(login: Effect<()>, st: RunState, vs: seq<LineVisit>)
    requires forall i :: 0 <= i < |vs| ==> vs[i] == Ignored
    ensures RunVisits(login, st, vs) == st
    decreases |vs|
  {
    if |vs| > 0 && st.fatal.None? {
      assert vs[0] == Ignored;
      IgnoredLines(login, st, vs[1..]);
    }
  }

  // ---------------------------------------------------------------------------
  // Login happens once.

  /** How many times the login page was driven: the waits for its user name field. */
  function LoginCount(t: seq<Action>): nat
  {
    if t == [] then 0 else (if t[0] == Wait(UsernameField) then 1 else 0) + LoginCount(t[1..])
  }

  lemma {:induction false} LoginCountAppend(a: seq<Action>, b: seq<Action>)
    ensures LoginCount(a + b) == LoginCount(a) + LoginCount(b)
  {
    if a == [] {
      assert a + b == b;
    } else {
      assert (a + b)[0] == a[0];
      assert (a + b)[1..] == a[1..] + b;
      LoginCountAppend(a[1..], b);
    }
  }

  /** The count is zero exactly when the login page's first wait does not occur. */
  lemma {:induction false} LoginCountZero(t: seq<Action>)
    ensures LoginCount(t) == 0 <==> Wait(UsernameField) !in t
  {
    if t != [] {
      LoginCountZero(t[1..]);
      assert t == [t[0]] + t[1..];
    }
  }

  lemma LoginEffectCount(c: Config, lv: LoginView)
    ensures LoginCount(LoginEffect(c, lv).actions) == 1
  {
    var t := LoginEffect(c, lv).actions;
    assert t[0] == Navigate(c.url) && t[1] == Wait(UsernameField);
    var after := t[2..];
    assert Wait(UsernameField) !in after;
    LoginCountZero(after);
    assert t[1..][1..] == after;
  }

  /** Every visit a file leads to has the shape of a host visit. */
  lemma VisitsShape(c: Config, lines: seq<string>, pages: seq<HostView>)
    requires |lines| == |pages|
    ensures forall i :: 0 <= i < |lines| && Visits(c, lines, pages)[i].Visited? ==> VisitShape(Visits(c, lines, pages)[i].effect)
  {
    forall i | 0 <= i < |lines| && Visits(c, lines, pages)[i].Visited?
      ensures VisitShape(Visits(c, lines, pages)[i].effect)
    {
      assert Visits(c, lines, pages)[i] == VisitLine(c, lines[i], pages[i]);
      HostEffectShape(c, pages[i], Visits(c, lines, pages)[i].host);
    }
  }

  /** Once logged in, the remaining lines never log in again and only extend the trace. */
  lemma {:induction false} LoggedInStaysSingle(login: Effect<()>, st: RunState, vs: seq<LineVisit>)
    requires st.loggedIn
    requires forall i :: 0 <= i < |vs| && vs[i].Visited? ==> Wait(UsernameField) !in vs[i].effect.actions
    ensures var r := RunVisits(login, st, vs);
            st.trace <= r.trace && LoginCount(r.trace) == LoginCount(st.trace)
    decreases |vs|
  {
    if |vs| > 0 && st.fatal.None? {
      var st1 := StepLine(login, st, vs[0]);
      forall i | 0 <= i < |vs[1..]| && vs[1..][i].Visited?
        ensures Wait(UsernameField) !in vs[1..][i].effect.actions
      {
        assert vs[1..][i] == vs[i + 1];
      }
      LoggedInStaysSingle(login, st1, vs[1..]);
      if vs[0].Visited? {
        assert st1.trace == st.trace + vs[0].effect.actions;
        LoginCountAppend(st.trace, vs[0].effect.actions);
        LoginCountZero(vs[0].effect.actions);
      }
    }
  }

  /** From a fresh state, the first visited line logs in, and no later one does. */
  lemma {:induction false} FreshRunLogsInOnce(login: Effect<()>, st: RunState, vs: seq<LineVisit>)
    requires !st.loggedIn && st.trace == [] && st.fatal.None?
    requires LoginCount(login.actions) == 1
    requires forall i :: 0 <= i < |vs| && vs[i].Visited? ==> Wait(UsernameField) !in vs[i].effect.actions
    ensures var r := RunVisits(login, st, vs);
            if exists i :: 0 <= i < |vs| && vs[i].Visited?
            then LoginCount(r.trace) == 1 && login.actions <= r.trace
            else r.trace == []
    decreases |vs|
  {
    if |vs| > 0 {
      var st1 := StepLine(login, st, vs[0]);
      forall i | 0 <= i < |vs[1..]| && vs[1..][i].Visited?
        ensures Wait(UsernameField) !in vs[1..][i].effect.actions
      {
        assert vs[1..][i] == vs[i + 1];
      }
      match vs[0]
      case Ignored =>
        FreshRunLogsInOnce(login, st1, vs[1..]);
        if exists i :: 0 <= i < |vs| && vs[i].Visited? {
          var i :| 0 <= i < |vs| && vs[i].Visited?;
          assert i > 0 && vs[1..][i - 1] == vs[i];
        } else {
          forall i | 0 <= i < |vs[1..]| ensures !vs[1..][i].Visited? {
            assert vs[1..][i] == vs[i + 1];
          }
        }
      case Visited(h, e) =>
        assert vs[0].Visited?;
        assert [] + login.actions == login.actions;
        if login.status.Fatal? {
          assert st1.trace == login.actions;
          assert RunVisits(login, st, vs) == st1;
        } else {
          assert RunVisits(login, st, vs) == RunVisits(login, st1, vs[1..]);
          assert st1.trace == login.actions + e.actions;
          LoginCountAppend(login.actions, e.actions);
          LoginCountZero(e.actions);
          LoggedInStaysSingle(login, st1, vs[1..]);
        }
    }
  }

  /**
   * Login runs exactly once when some line names a host, as the first thing
   * the run does, before any search; with no such line the browser is never
   * driven.
   */
  lemma LoginOnce(c: Config, lv: LoginView, lines: seq<string>, pages: seq<HostView>)
    requires |lines| == |pages|
    ensures var t := Run(c, lv, lines, pages).trace;
            if exists i :: 0 <= i < |lines| && ValidHost(lines[i]).Some?
            then LoginCount(t) == 1 && LoginBatch(c) <= t
            else t == []
  {
    var vs := Visits(c, lines, pages);
    VisitsShape(c, lines, pages);
    LoginEffectCount(c, lv);
    LoginOutcome(c, lv);
    FreshRunLogsInOnce(LoginEffect(c, lv), Init, vs);
    forall i | 0 <= i < |lines| ensures vs[i].Visited? <==> ValidHost(lines[i]).Some? {
      assert vs[i] == VisitLine(c, lines[i], pages[i]);
    }
  }

  // ---------------------------------------------------------------------------
  // Hosts are visited in file order.

  /** The commands of the visits, one after the other. */
  function VisitsTrace(vs: seq<LineVisit>): seq<Action>
    decreases |vs|
  {
    if vs == [] then [] else (if vs[0].Visited? then vs[0].effect.actions else []) + VisitsTrace(vs[1..])
  }

  /** The commands of the visits of the accepted hosts, stated from the lines and pages alone, in file order. */
  function HostTraces(c: Config, lines: seq<string>, pages: seq<HostView>): seq<Action>
    requires |lines| == |pages|
    decreases |lines|
  {
    if |lines| == 0 then []
    else
      (match ValidHost(lines[0])
       case None => []
       case Some(h) => HostEffect(c, pages[0], h).actions)
      + HostTraces(c, lines[1..], pages[1..])
  }

  lemma {:induction false} VisitsTraceIsHostTraces(c: Config, lines: seq<string>, pages: seq<HostView>)
    requires |lines| == |pages|
    ensures VisitsTrace(Visits(c, lines, pages)) == HostTraces(c, lines, pages)
    decreases |lines|
  {
    if |lines| > 0 {
      var vs := Visits(c, lines, pages);
      assert vs[0] == VisitLine(c, lines[0], pages[0]);
      assert vs[1..] == Visits(c, lines[1..], pages[1..]);
      VisitsTraceIsHostTraces(c, lines[1..], pages[1..]);
    }
  }

  /** Once logged in, a run without a fatal stop adds the visits' commands to the trace and nothing else. */
  lemma {:induction false} LoggedInTrace(login: Effect<()>, st: RunState, vs: seq<LineVisit>)
    requires st.loggedIn && st.fatal.None?
    requires RunVisits(login, st, vs).fatal.None?
    ensures RunVisits(login, st, vs).trace == st.trace + VisitsTrace(vs)
    decreases |vs|
  {
    if |vs| > 0 {
      var st1 := StepLine(login, st, vs[0]);
      var head := if vs[0].Visited? then vs[0].effect.actions else [];
      assert st1.trace == st.trace + head;
      LoggedInTrace(login, st1, vs[1..]);
      AppendAssoc(st.trace, head, VisitsTrace(vs[1..]));
    }
  }

  /** From a fresh state, a run without a fatal stop issues the login's commands once, at the first visit, and then the visits' commands. */
  lemma {:induction false} FreshTrace(login: Effect<()>, st: RunState, vs: seq<LineVisit>)
    requires !st.loggedIn && st.fatal.None?
    requires RunVisits(login, st, vs).fatal.None?
    ensures RunVisits(login, st, vs).trace ==
              st.trace + (if exists i :: 0 <= i < |vs| && vs[i].Visited? then login.actions else []) + VisitsTrace(vs)
    decreases |vs|
  {
    if |vs| > 0 {
      var st1 := StepLine(login, st, vs[0]);
      match vs[0]
      case Ignored =>
        FreshTrace(login, st1, vs[1..]);
        assert VisitsTrace(vs) == VisitsTrace(vs[1..]);
        assert (exists i :: 0 <= i < |vs| && vs[i].Visited?) <==> (exists i :: 0 <= i < |vs[1..]| && vs[1..][i].Visited?) by {
          if exists i :: 0 <= i < |vs| && vs[i].Visited? {
            var i :| 0 <= i < |vs| && vs[i].Visited?;
            assert i > 0 && vs[1..][i - 1] == vs[i];
          }
          if exists i :: 0 <= i < |vs[1..]| && vs[1..][i].Visited? {
            var i :| 0 <= i < |vs[1..]| && vs[1..][i].Visited?;
            assert vs[i + 1] == vs[1..][i];
          }
        }
      case Visited(h, e) =>
        assert login.status.Ok?;
        assert vs[0].Visited?;
        assert st1.trace == st.trace + login.actions + e.actions;
        LoggedInTrace(login, st1, vs[1..]);
        assert VisitsTrace(vs) == e.actions + VisitsTrace(vs[1..]);
        AppendAssoc(st.trace + login.actions, e.actions, VisitsTrace(vs[1..]));
    }
  }

  /**
   * A run without a fatal stop issues the login's commands, when some line
   * names a host, and then the commands of each accepted host's visit, one
   * host after the other in file order.
   */
  lemma RunTraceInFileOrder(c: Config, lv: LoginView, lines: seq<string>, pages: seq<HostView>)
    requires |lines| == |pages|
    requires Run(c, lv, lines, pages).fatal.None?
    ensures Run(c, lv, lines, pages).trace ==
              (if exists i :: 0 <= i < |lines| && ValidHost(lines[i]).Some? then LoginEffect(c, lv).actions else [])
              + HostTraces(c, lines, pages)
  {
    var vs := Visits(c, lines, pages);
    FreshTrace(LoginEffect(c, lv), Init, vs);
    VisitsTraceIsHostTraces(c, lines, pages);
    forall i | 0 <= i < |lines| ensures vs[i].Visited? <==> ValidHost(lines[i]).Some? {
      assert vs[i] == VisitLine(c, lines[i], pages[i]);
    }
    assert [] + (if exists i :: 0 <= i < |vs| && vs[i].Visited? then LoginEffect(c, lv).actions else [])
           == (if exists i :: 0 <= i < |vs| && vs[i].Visited? then LoginEffect(c, lv).actions else []);
  }

  // ---------------------------------------------------------------------------
  // A run that stops at a fatal error.

  /** Some line names a host. */
  predicate NamesHost(lines: seq<string>)
  {
    exists i :: 0 <= i < |lines| && ValidHost(lines[i]).Some?
  }

  /** The commands one iteration issues: none for a rejected line; the login when not yet logged in, then the visit unless the login failed. */
  function StepActions(login: Effect<()>, loggedIn: bool, lv: LineVisit): seq<Action>
  {
    match lv
    case Ignored => []
    case Visited(_, e) =>
      if loggedIn then e.actions
      else if login.status.Fatal? then login.actions
      else login.actions + e.actions
  }

  /** One iteration appends exactly `StepActions` to the trace. */
  lemma StepLineTrace(login: Effect<()>, st: RunState, lv: LineVisit)
    ensures StepLine(login, st, lv).trace == st.trace + StepActions(login, st.loggedIn, lv)
  {
    if lv.Visited? && !st.loggedIn && login.status.Ok? {
      AppendAssoc(st.trace, login.actions, lv.effect.actions);
    }
  }

  /** The iteration that stops the run writes no inventory line, and it is a visited line. */
  lemma StepLineFatal(login: Effect<()>, st: RunState, lv: LineVisit)
    requires st.fatal.None? && StepLine(login, st, lv).fatal.Some?
    ensures lv.Visited? && StepLine(login, st, lv).inventory == st.inventory
  {
  }

  /** A run that stops fatally is a run over a prefix without a fatal stop, followed by the one iteration that stops it. */
  lemma {:induction false} FatalSplit(login: Effect<()>, st: RunState, vs: seq<LineVisit>) returns (k: nat)
    requires st.fatal.None? && RunVisits(login, st, vs).fatal.Some?
    ensures k < |vs| && RunVisits(login, st, vs[..k]).fatal.None?
    ensures RunVisits(login, st, vs) == StepLine(login, RunVisits(login, st, vs[..k]), vs[k])
    decreases |vs|
  {
    assert vs != [];
    var st1 := StepLine(login, st, vs[0]);
    assert RunVisits(login, st, vs) == RunVisits(login, st1, vs[1..]);
    if st1.fatal.Some? {
      k := 0;
      assert vs[..0] == [];
    } else {
      var k' := FatalSplit(login, st1, vs[1..]);
      k := k' + 1;
      var pre := vs[..k];
      assert pre[0] == vs[0] && pre[1..] == vs[1..][..k'];
      assert RunVisits(login, st, pre) == RunVisits(login, st1, vs[1..][..k']);
      assert vs[1..][k'] == vs[k];
    }
  }

  /** Without a fatal stop, the run is logged in at the end iff it was at the start or some line was visited. */
  lemma {:induction false} LoggedInIffVisited(login: Effect<()>, st: RunState, vs: seq<LineVisit>)
    requires st.fatal.None? && RunVisits(login, st, vs).fatal.None?
    ensures RunVisits(login, st, vs).loggedIn <==> st.loggedIn || exists i :: 0 <= i < |vs| && vs[i].Visited?
    decreases |vs|
  {
    if |vs| > 0 {
      var st1 := StepLine(login, st, vs[0]);
      LoggedInIffVisited(login, st1, vs[1..]);
      if exists i :: 0 <= i < |vs[1..]| && vs[1..][i].Visited? {
        var i :| 0 <= i < |vs[1..]| && vs[1..][i].Visited?;
        assert vs[i + 1] == vs[1..][i];
      }
      if exists i :: 0 <= i < |vs| && vs[i].Visited? {
        var i :| 0 <= i < |vs| && vs[i].Visited?;
        if i > 0 { assert vs[1..][i - 1] == vs[i]; }
      }
    }
  }

  /** The visits of a prefix of the file are the prefix of its visits. */
  lemma VisitsPrefix(c: Config, lines: seq<string>, pages: seq<HostView>, k: nat)
    requires |lines| == |pages| && k <= |lines|
    ensures Visits(c, lines, pages)[..k] == Visits(c, lines[..k], pages[..k])
  {
    var a, b := Visits(c, lines, pages)[..k], Visits(c, lines[..k], pages[..k]);
    forall i | 0 <= i < k ensures a[i] == b[i] {
      assert a[i] == VisitLine(c, lines[i], pages[i]);
      assert b[i] == VisitLine(c, lines[..k][i], pages[..k][i]);
    }
  }

  /**
   * A run that stops fatally, at the line `k` that stops it, leaves exactly
   * what the lines before `k` produced: the file is the run of those lines,
   * and the commands are theirs followed by those of line `k`'s iteration.
   */
  lemma RunFatalPrefix(c: Config, lv: LoginView, lines: seq<string>, pages: seq<HostView>) returns (k: nat)
    requires |lines| == |pages|
    requires Run(c, lv, lines, pages).fatal.Some?
    ensures k < |lines| && ValidHost(lines[k]).Some?
    ensures Run(c, lv, lines[..k], pages[..k]).fatal.None?
    ensures Run(c, lv, lines, pages).file == Run(c, lv, lines[..k], pages[..k]).file
    ensures Run(c, lv, lines, pages).trace ==
              Run(c, lv, lines[..k], pages[..k]).trace +
              StepActions(LoginEffect(c, lv), NamesHost(lines[..k]), VisitLine(c, lines[k], pages[k]))
  {
    var login := LoginEffect(c, lv);
    var vs := Visits(c, lines, pages);
    k := FatalSplit(login, Init, vs);
    VisitsPrefix(c, lines, pages, k);
    var pre := RunVisits(login, Init, vs[..k]);
    assert pre == RunVisits(login, Init, Visits(c, lines[..k], pages[..k]));
    assert vs[k] == VisitLine(c, lines[k], pages[k]);
    StepLineFatal(login, pre, vs[k]);
    StepLineTrace(login, pre, vs[k]);
    LoggedInIffVisited(login, Init, vs[..k]);
    forall i | 0 <= i < k ensures vs[..k][i].Visited? <==> ValidHost(lines[..k][i]).Some? {
      assert vs[..k][i] == VisitLine(c, lines[i], pages[i]);
    }
    assert pre.loggedIn <==> NamesHost(lines[..k]);
  }

  /**
   * A run that stops fatally while handling line `k` keeps a file holding the
   * header and one line per successful read of the lines before `k`, in file
   * order.
   */
  lemma RunFatalKeepsEarlierLines(c: Config, lv: LoginView, lines: seq<string>, pages: seq<HostView>)
    requires |lines| == |pages|
    requires Run(c, lv, lines, pages).fatal.Some?
    ensures Run(c, lv, lines, pages).kept
    ensures exists k :: 0 <= k < |lines| && ValidHost(lines[k]).Some? &&
              Run(c, lv, lines, pages).file == Header + ExpectedLines(Extractions(lines[..k], pages[..k]))
  {
    var k := RunFatalPrefix(c, lv, lines, pages);
    RunWritesExpectedLines(c, lv, lines[..k], pages[..k]);
  }

  /**
   * The commands of a run that stops fatally while handling line `k`: the
   * login (when a line before `k` names a host), the visits of the accepted
   * hosts before `k` in file order, and then the commands of line `k`'s
   * iteration.
   */
  lemma RunFatalTrace(c: Config, lv: LoginView, lines: seq<string>, pages: seq<HostView>)
    requires |lines| == |pages|
    requires Run(c, lv, lines, pages).fatal.Some?
    ensures exists k :: 0 <= k < |lines| && ValidHost(lines[k]).Some? &&
              Run(c, lv, lines, pages).trace ==
                (if NamesHost(lines[..k]) then LoginEffect(c, lv).actions else []) + HostTraces(c, lines[..k], pages[..k]) +
                StepActions(LoginEffect(c, lv), NamesHost(lines[..k]), VisitLine(c, lines[k], pages[k]))
  {
    var k := RunFatalPrefix(c, lv, lines, pages);
    var lk, pk := lines[..k], pages[..k];
    RunTraceInFileOrder(c, lv, lk, pk);
    var front := if NamesHost(lk) then LoginEffect(c, lv).actions else [];
    assert Run(c, lv, lk, pk).trace == front + HostTraces(c, lk, pk);
  }

  /** A line that names no host changes nothing: no login, no portal command, no loop variable. */
  lemma IgnoredLineChangesNothing(c: Config, lv: LoginView, st: RunState, line: string, v: HostView)
    requires ValidHost(line).None?
    ensures StepLine(LoginEffect(c, lv), st, VisitLine(c, line, v)) == st
  {
  }

  // ---------------------------------------------------------------------------
  // The loop itself, on a browser.

  /** Lines 109-131 for one accepted host. */
  method VisitHost(b: Browser, v: HostView, h: string) returns (s: Status<HostOutcome>)
    modifies b
    ensures s == HostEffect(b.config, v, h).status
    ensures b.trace == old(b.trace) + HostEffect(b.config, v, h).actions
  {
    var f := b.GotoFrontPage(v);
    if f.Fatal? {
      return Fatal(f.cause);
    }
    ghost var t1 := b.trace;
    var found := b.SearchHost(v, h);
    ghost var search := SearchEffect(v, h).actions;
    if !found {
      assert b.trace == t1 + search + [];
      AppendAssoc(old(b.trace), FrontPageEffect(b.config, v).actions, search + []);
      return Ok(Skipped);
    }
    s := SelectAndRead(b, v, h);
    AppendAssoc(t1, search, Visit(b.config, v, h, AtSelect).actions);
    AppendAssoc(old(b.trace), FrontPageEffect(b.config, v).actions, search + Visit(b.config, v, h, AtSelect).actions);
  }

  /** selectHost, then the rest for the row it selected. */
  method SelectAndRead(b: Browser, v: HostView, h: string) returns (s: Status<HostOutcome>)
    modifies b
    ensures s == Visit(b.config, v, h, AtSelect).status
    ensures b.trace == old(b.trace) + Visit(b.config, v, h, AtSelect).actions
  {
    var sel := b.SelectHost(v);
    if sel.Fatal? {
      return Fatal(sel.cause);
    }
    if sel.value.None? {
      return Ok(Skipped);
    }
    s := ReadIfGranted(b, v, h, sel.value.value);
    AppendAssoc(old(b.trace), SelectEffect(v).actions, Visit(b.config, v, h, AtDropdown(sel.value.value)).actions);
  }

  /** dropdownMenu, then copyPassword when it answered true. */
  method ReadIfGranted(b: Browser, v: HostView, h: string, ip: string) returns (s: Status<HostOutcome>)
    modifies b
    ensures s == Visit(b.config, v, h, AtDropdown(ip)).status
    ensures b.trace == old(b.trace) + Visit(b.config, v, h, AtDropdown(ip)).actions
  {
    var granted := b.DropdownMenu(v);
    ghost var drop := DropdownEffect(b.config, v).actions;
    if granted.Fatal? {
      return Fatal(granted.cause);
    }
    if !granted.value {
      return Ok(Located(ip));
    }
    var credential := b.CopyPassword(v);
    AppendAssoc(old(b.trace), drop, CopyPasswordEffect(v).actions);
    return Ok(Extracted(ip, credential));
  }

  /** One iteration of the loop of `main` (lines 97-131), on a browser. */
  method HandleLine(b: Browser, lv: LoginView, loggedIn: bool, credential: string, ipaddr: string,
                    inventory: seq<Extraction>, line: string, v: HostView)
    returns (loggedIn': bool, credential': string, ipaddr': string, inventory': seq<Extraction>, fatal: Option<FatalCause>)
    modifies b
    ensures RunState(loggedIn', credential', ipaddr', inventory', b.trace, fatal)
            == StepLine(LoginEffect(b.config, lv), RunState(loggedIn, credential, ipaddr, inventory, old(b.trace), None),
                        VisitLine(b.config, line, v))
  {
    loggedIn', credential', ipaddr', inventory', fatal := loggedIn, credential, ipaddr, inventory, None;
    var host := ValidHost(line);
    if host.None? {
      return;
    }
    if !loggedIn {
      var s := b.LoginCyberArk(lv);
      if s.Fatal? {
        fatal := Some(s.cause);
        return;
      }
    }
    loggedIn' := true;
    credential', ipaddr', inventory', fatal := VisitAndRecord(b, v, host.value, credential, ipaddr, inventory);
  }

  /** The part of the loop body after the login: the visit, then the loop's variables it updates. */
  method VisitAndRecord(b: Browser, v: HostView, h: string, credential: string, ipaddr: string, inventory: seq<Extraction>)
    returns (credential': string, ipaddr': string, inventory': seq<Extraction>, fatal: Option<FatalCause>)
    modifies b
    ensures RunState(true, credential', ipaddr', inventory', b.trace, fatal)
            == Record(RunState(true, credential, ipaddr, inventory, old(b.trace), None), h, HostEffect(b.config, v, h))
  {
    credential', ipaddr', inventory', fatal := credential, ipaddr, inventory, None;
    var o := VisitHost(b, v, h);
    match o
    case Fatal(why) =>
      fatal := Some(why);
    case Ok(Skipped) =>
    case Ok(Located(ip)) =>
      ipaddr' := ip;
    case Ok(Extracted(ip, cred)) =>
      ipaddr' := ip;
      credential' := cred;
      if cred != CopyError {
        inventory' := inventory + [Extraction(h, ip, cred)];
      }
  }

  /** `main` from the scanner loop on: the result is the specified run. */
  method RunInventory(c: Config, lv: LoginView, lines: seq<string>, pages: seq<HostView>) returns (res: RunResult)
    requires |lines| == |pages|
    ensures res == Run(c, lv, lines, pages)
  {
    var b := new Browser(c);
    var loggedIn, credential, ipaddr := false, Empty, "";
    var inventory: seq<Extraction> := [];
    var fatal: Option<FatalCause> := None;
    ghost var login := LoginEffect(c, lv);
    ghost var vs := Visits(c, lines, pages);
    var i := 0;
    while i < |lines| && fatal.None?
      invariant 0 <= i <= |lines| && b.config == c
      invariant RunVisits(login, RunState(loggedIn, credential, ipaddr, inventory, b.trace, fatal), vs[i..])
                == RunVisits(login, Init, vs)
    {
      assert vs[i..][0] == vs[i] == VisitLine(c, lines[i], pages[i]);
      assert vs[i..][1..] == vs[i + 1..];
      loggedIn, credential, ipaddr, inventory, fatal := HandleLine(b, lv, loggedIn, credential, ipaddr, inventory, lines[i], pages[i]);
      i := i + 1;
    }
    res := RunResult(b.trace, Header + Render(inventory), fatal.Some? || credential != Empty, fatal);
  }
}
