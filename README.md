# cyberpass, modelled in Dafny

cyberpass reads a file of host names, one per line. It logs in to a CyberArk
password portal once, at the first accepted host. For each accepted host it
goes back to the portal's front page, searches for the host and selects the
first result row, reading the row's IP address. It then works out the
account's approval state and, when access is granted, copies the password.
Each password it reads becomes a line of an Ansible inventory file. At the
end the inventory file is kept or deleted.

The model has five modules:

- `Common` (common.dfy): an `Option` type.
- `Hostname` (hostname.dfy): the host-line filter.
  - It lower-cases the line and takes its first white-space-separated field.
  - It accepts the field only if it matches `^rh[a-z0-9]+$`.
  - The pattern is modelled twice: once as a deterministic automaton, and once as the predicate `IsHostName`. A lemma proves the two agree.
- `Inventory` (inventory.dfy): the inventory file's text.
  - the fixed header;
  - escaping of both quotes, together with an unescaping inverse;
  - the line written for a host.
- `Portal` (portal.dfy): the portal workflow against an abstract browser.
  - The browser is an oracle.
    - A `LoginView` says how the portal answers the login.
    - A `HostView` says which markers become visible and which commands succeed during one host's visit.
  - Every command sent to the browser is appended to a trace of `Action`s.
  - A step that ends the process (`log.Fatal`, `os.Exit`) gives a `Fatal` status.
  - Each step pairs a specification function (`…Effect`: the status and the commands issued) with a `Browser` method. The method changes the browser's `trace` field, and it is proved to issue exactly the specified commands.
- `RunLoop` (runloop.dfy): the loop of `main`.
  - A specification `Run` folds the loop body over the lines.
  - A method `RunInventory` runs the loop on a `Browser`, and is proved equal to `Run`.
  - Lemmas relate `Run` to reference descriptions, each stated from the lines and pages alone:
    - which credentials are extracted;
    - which inventory lines are written;
    - when the file is deleted;
    - the single login;
    - the order of the hosts.

The date of tomorrow, the portal URL, the operator's user name and password, and the ticket id are inputs (`Config`).

Two consequences of the code deserve a mention:

- The host pattern compiled at cyberpass.go:85 is `^rh[a-z0-9]+$`: only names that start with `rh` are accepted. The comment above it says an earlier version of the pattern was reverted.
- The file is deleted exactly when the loop's `credential` variable still holds `"empty"` at the end (cyberpass.go:138). This has two consequences:
  - a run whose last credential read was literally the text `empty` deletes the file, although a line was written;
  - a run whose only reads all failed keeps a file holding only the header.

  `RunLoop.FileKeptRule` and `RunLoop.FailedReadsKeepHeaderOnly` state both.

## Model

| member | source | states |
|---|---|---|
| Hostname.IsSpace | cyberpass.go:89 | the separators of `strings.Fields`: the characters `unicode.IsSpace` reports, listed by code point |
| Hostname.ToLower | cyberpass.go:88 | lower-casing keeps the length and maps each character through the ASCII lower-case mapping |
| Hostname.TrimLeft | cyberpass.go:89 | what is dropped is all white space, and what remains is a suffix that starts with a non-space |
| Hostname.TakeField | cyberpass.go:89-91 | the field is a space-free prefix, ended by white space or by the end of the line, and non-empty when the line starts with a non-space |
| Hostname.FirstFieldSpec | cyberpass.go:89-95 | there is no field iff the line is all white space; otherwise the field is non-empty and space-free, only white space comes before it, and white space or the end of the line comes after it |
| Hostname.Matches | cyberpass.go:85-97 | `validName.MatchString`, run as an automaton; its language is stated by `Hostname.MatchesIsHostName` |
| Hostname.FirstField | cyberpass.go:89-95 | `strings.Fields(s)[0]`, or none when there is no field; stated by `Hostname.FirstFieldSpec` |
| Hostname.ScanDead | cyberpass.go:85 | the automaton's dead state absorbs every input |
| Hostname.ScanTail | cyberpass.go:85 | from the tail state the automaton ends in the tail state iff every remaining character is in `[a-z0-9]` |
| Hostname.MatchesIsHostName | cyberpass.go:85-97 | the automaton accepts a string iff it is `r`, `h` and one or more characters of `[a-z0-9]` |
| Hostname.ValidHost | cyberpass.go:88-101 | the filter: the host a line yields, or none; stated by `Hostname.ValidHostSpec` and `Hostname.ValidHostShape` |
| Hostname.ValidHostSpec | cyberpass.go:85-101 | a line is accepted iff its lower-cased first field exists and is in the pattern's language, and the name kept is that field |
| Hostname.ValidHostShape | cyberpass.go:88-101 | a blank line is rejected; an accepted name matches the pattern and has no white space and no upper-case letter |
| Hostname.ValidHostIgnoresCase | cyberpass.go:88 | lower-casing is idempotent, so the filter gives the same answer on a line and on its lower-cased form |
| Hostname.ExampleHyphen | cyberpass.go:85-101 | `rh-1` is rejected, because a hyphen is outside `[a-z0-9]` |
| Hostname.ExampleAccepted | cyberpass.go:88-101 | `rh7 db` yields the host `rh7`, because only the first field is looked at |
| Hostname.ExampleTooShort | cyberpass.go:85-101 | `rh` is rejected, because the pattern needs at least one character after `rh` |
| Inventory.ReplaceChar | cyberpass.go:127-128 | `strings.ReplaceAll` for a one-character target; it distributes over concatenation (`Inventory.ReplaceCharAppend`) |
| Inventory.ReplaceCharAppend | cyberpass.go:127-128 | replacing in a concatenation is the concatenation of the replacements |
| Inventory.EscapeAsWritten | cyberpass.go:127-128 | the two `ReplaceAll` calls in source order; equal to the single-pass escape by `Inventory.EscapeAsWrittenIsEscape` |
| Inventory.EscapeAsWrittenIsEscape | cyberpass.go:126-128 | the two sequential `ReplaceAll` calls equal a single pass that puts a backslash before each quote |
| Inventory.UnescapeEscape | cyberpass.go:126-128 | unescaping the escaped password gives back the password |
| Inventory.EscapeLength | cyberpass.go:127-128 | escaping adds exactly one character per quote |
| Inventory.EscapedQuotesArePreceded | cyberpass.go:127-128 | every quote in the escaped text has a backslash right before it |
| Inventory.EscapeWithoutQuotes | cyberpass.go:127-128 | a password without quotes is written unchanged |
| Inventory.EscapeExample | cyberpass.go:127-128 | both `'` and `"` get a backslash, and other characters are kept |
| Inventory.EscapeTwiceDiffers | cyberpass.go:127-128 | escaping is not idempotent: `'` escaped twice is not `'` escaped once |
| Inventory.InventoryLine | cyberpass.go:129-130 | the line the format string writes, with the password escaped by the two `strings.ReplaceAll` calls (`Inventory.EscapeAsWritten`); its fields are stated by `Inventory.InventoryLineFields` |
| Inventory.InventoryLineFields | cyberpass.go:129-130 | a line starts with the host; the text between `"'` and `'"` unescapes to the credential; the line ends with the raw credential and a newline |
| Inventory.Header | cyberpass.go:72-75 | the three header writes in order: `[all:vars]`, `ansible_user=sysmgr` and the blank lines before `[appserver]`; every file lemma (`RunLoop.RunWritesExpectedLines`, `RunLoop.RunFatalKeepsEarlierLines`, `RunLoop.NoHostNoAction`) states that the file starts with it |
| Portal.WaitsFor | cyberpass.go:185-250 | one wait per state, in the order given, each for that state's own element |
| Portal.Classify | cyberpass.go:180-259 | the state is the first state, in probe order, whose marker is visible, with every earlier marker absent; it is `Undetermined` iff no marker is visible |
| Portal.ProbeWaitsInRankOrder | cyberpass.go:185-250 | a state's rank is its position in probe order, and the last probe run for a state waits for that state's own element |
| Portal.ProbeWaitsValue | cyberpass.go:185-250 | the probes wait for `from-time`, `input#reason`, the password display and the pending label, in that order |
| Portal.ClassifyExclusive | cyberpass.go:180-259 | with exactly one marker visible, the classifier reports that state |
| Portal.LoginEffect | cyberpass.go:430-476 | loginCyberArk's status and commands; stated by `Portal.LoginOutcome` |
| Portal.LoginOutcome | cyberpass.go:430-476 | the login succeeds iff the form takes its input, no error summary shows and the home marker appears in time; an error message ends the run with that message, a missing home page ends it with a timeout, and the login page's six commands always come first |
| Portal.GotoPortalEffect | cyberpass.go:388-397 | one navigation to the portal URL, fatal iff it fails |
| Portal.FrontPageEffect | cyberpass.go:365-386 | gotoFrontPage's status and commands; stated by `Portal.FrontPageOutcome` |
| Portal.SearchEffect | cyberpass.go:350-363 | searchHost: the wait, the value and the Enter key, answering whether the batch succeeded, never fatal |
| Portal.FrontPageOutcome | cyberpass.go:365-397 | the step waits for the home marker, then clicks it when it shows or otherwise navigates to the portal; it fails iff that click or that navigation fails |
| Portal.SelectEffect | cyberpass.go:318-348 | selectHost's status and commands; stated by `Portal.SelectOutcome` |
| Portal.SelectOutcome | cyberpass.go:318-348 | no row means the host is skipped; the address is returned iff the row shows, its address is read and its menu opens; an unreadable address or a failed click is fatal |
| Portal.ReasonEffect | cyberpass.go:208-219 | the reason selection keys as one batch, fatal iff it fails |
| Portal.RequestApprovalEffect | cyberpass.go:261-316 | requestApproval's commands up to the first failing one; stated by `Portal.RequestSubmission` |
| Portal.PreApprovalEffect | cyberpass.go:206-228 | the pre-approval reason selection and submit; stated by `Portal.PreApprovalPath` |
| Portal.PendingEffect | cyberpass.go:251-255 | the return navigation after a pending state, answering false; stated by `Portal.PendingPath` |
| Portal.DropdownEffect | cyberpass.go:180-259 | dropdownMenu's status and commands; stated by `Portal.DropdownProbesInOrder`, `Portal.DropdownResult`, `Portal.TicketSentinel` and the three path lemmas |
| Portal.DropdownProbesInOrder | cyberpass.go:180-259 | the probes are waited for in probe order, and exactly as many as the rank of the state found |
| Portal.DropdownResult | cyberpass.go:180-259 | the answer is true iff the state is pre-approval or approved; a fatal stop comes only from a request with a ticket, a pre-approval or a pending state; the approved case issues the three probes and nothing else; the case with no marker issues the four probes and answers false |
| Portal.TicketSentinel | cyberpass.go:190-194 | with the `noreason` ticket, a host that needs a request is skipped after the first probe, with nothing set and nothing submitted |
| Portal.RequestSubmission | cyberpass.go:261-316 | with a ticket, the request never answers true; it succeeds iff every command succeeds; on success the commands are, in order, the from time, the date, the to time, the reason wait, the ticket, the reason selection, submit and the return to the portal |
| Portal.PreApprovalPath | cyberpass.go:200-229 | a pre-approval host answers true iff the reason selection and the submit succeed; either failure is fatal; the commands are the two probes, the reason keys and submit |
| Portal.PendingPath | cyberpass.go:245-255 | a pending host issues the four probes and a navigation to the portal, and answers false unless the navigation fails |
| Portal.CopyPasswordEffect | cyberpass.go:160-178 | copyPassword's password and commands; stated by `Portal.CopyPasswordCloses` |
| Portal.CopyPasswordCloses | cyberpass.go:160-178 | copyPassword reads the password and then clicks Close, whether or not the read succeeded; a failed read returns `copy password error` |
| Portal.StepsAvoid | cyberpass.go:180-397 | the front page, select and dropdown steps never touch the login page or the Close button, and copyPassword never touches the login page |
| Portal.Browser.constructor | cyberpass.go:77-82 | a new session has issued no commands |
| Portal.Browser.Send | cyberpass.go:165-176 | a batch of commands is appended to the trace |
| Portal.Browser.LoginCyberArk | cyberpass.go:430-476 | the status and the appended commands are `LoginEffect`'s |
| Portal.Browser.GotoCyberArk | cyberpass.go:388-397 | the status and the appended navigation are `GotoPortalEffect`'s for the given navigation outcome |
| Portal.Browser.GotoFrontPage | cyberpass.go:365-386 | the status and the appended commands are `FrontPageEffect`'s |
| Portal.Browser.SearchHost | cyberpass.go:350-363 | the answer and the appended commands are `SearchEffect`'s |
| Portal.Browser.SelectHost | cyberpass.go:318-348 | the status and the appended commands are `SelectEffect`'s |
| Portal.Browser.SelectReason | cyberpass.go:208-219 | the status and the appended commands are `ReasonEffect`'s |
| Portal.Browser.RequestApproval | cyberpass.go:261-316 | the status and the appended commands are `RequestApprovalEffect`'s |
| Portal.Browser.DropdownMenu | cyberpass.go:180-259 | the status and the appended commands are `DropdownEffect`'s |
| Portal.Browser.PreApprove | cyberpass.go:206-228 | the status and the appended commands are `PreApprovalEffect`'s |
| Portal.Browser.WaitingApproval | cyberpass.go:251-255 | the status and the appended commands are `PendingEffect`'s |
| Portal.Browser.CopyPassword | cyberpass.go:160-178 | the password returned and the appended commands are `CopyPasswordEffect`'s |
| RunLoop.Visit | cyberpass.go:109-131 | the loop body for one accepted host from a given stage on; stated by `RunLoop.VisitFromShape`, `RunLoop.ExtractedOnlyWhenGranted` and `RunLoop.GrantedIsExtracted` |
| RunLoop.HostEffect | cyberpass.go:109-131 | the whole visit of an accepted host; stated by `RunLoop.HostEffectShape` |
| RunLoop.FallbackThenPending | cyberpass.go:109-131 | after the home page fallback has navigated, a pending host navigates again, and only that second navigation decides whether the run stops; the visit's full command sequence |
| RunLoop.VisitFromShape | cyberpass.go:109-131 | from every stage on, a visit never opens the login page, and clicks Close iff it reads a credential, as its last command |
| RunLoop.HostEffectShape | cyberpass.go:109-131 | a whole host visit never opens the login page, and clicks Close iff it reads a credential, as its last command |
| RunLoop.ExtractedOnlyWhenGranted | cyberpass.go:109-124 | a credential is read only if the front page, search and select steps succeed, the row shows that address, and dropdownMenu answers true; the credential is copyPassword's result |
| RunLoop.GrantedIsExtracted | cyberpass.go:109-124 | conversely, a visit without a fatal stop reads the credential whenever the search succeeds, the row shows an address and the state is pre-approval or approved |
| RunLoop.Empty | cyberpass.go:38 | the initial value `"empty"` of `credential`; `RunLoop.FileKeptRule` states that a completed run still holding it deletes the file |
| RunLoop.Init | cyberpass.go:37-39 | not logged in, `credential` is `"empty"`, no address, no entries, no commands, no fatal stop; `RunLoop.NoHostNoAction` states that a run that never leaves it issues no command and deletes the file |
| RunLoop.VisitLine | cyberpass.go:88-131 | the host filter, then the visit of the accepted host; stated by `RunLoop.IgnoredLineChangesNothing` and `RunLoop.VisitReadsReference` |
| RunLoop.Visits | cyberpass.go:87-131 | the filter and the visit, for each line of the host file in order; stated by `RunLoop.VisitsPrefix` and `RunLoop.VisitsReadReference` |
| RunLoop.Render | cyberpass.go:129-130 | one line per recorded entry, in order, each the `Inventory.InventoryLine` of its host, address and credential |
| RunLoop.Record | cyberpass.go:103-131 | the loop variables after a visit: the address, the credential and the inventory entry of a read that did not fail; stated by `RunLoop.StepLineNonFatal` |
| RunLoop.StepLine | cyberpass.go:97-131 | one iteration, login included; stated by `RunLoop.StepLineNonFatal` and `RunLoop.IgnoredLineChangesNothing` |
| RunLoop.RunVisits | cyberpass.go:87-132 | the loop over the lines, ending at a fatal stop; stated by `RunLoop.RunVisitsNonFatal`, `RunLoop.LoggedInTrace` and `RunLoop.FreshTrace` |
| RunLoop.Run | cyberpass.go:87-147 | the whole run: trace, file lines, kept flag and fatal stop; stated by `RunLoop.RunWritesExpectedLines`, `RunLoop.FileKeptRule`, `RunLoop.LoginOnce` and `RunLoop.RunTraceInFileOrder` |
| RunLoop.VisitReadsReference | cyberpass.go:87-131 | a line's visit without a fatal stop reads exactly the reference extraction for that line and its page |
| RunLoop.VisitsReadReference | cyberpass.go:87-131 | the same holds for every line of a file |
| RunLoop.ReadAllReference | cyberpass.go:87-131 | reads that agree with the reference line by line agree with the reference for the whole file, in file order |
| RunLoop.StepLineNonFatal | cyberpass.go:97-131 | one iteration without a fatal stop appends the inventory entry of its read when the read did not fail, and the read becomes `credential` |
| RunLoop.RunVisitsNonFatal | cyberpass.go:87-132 | a loop without a fatal stop has an inventory of the successful reads, in order, and its `credential` is the last read or the initial value |
| RunLoop.RunWritesExpectedLines | cyberpass.go:72-131 | without a fatal stop, the file is the header followed by one line for each credential read that did not fail, in file order |
| RunLoop.FileKeptRule | cyberpass.go:138-147 | a completed run keeps the file iff some credential was read and the last one read is not `empty`; a fatal stop never deletes it |
| RunLoop.FailedReadsKeepHeaderOnly | cyberpass.go:124-147 | if every read failed (and there was at least one), the file is kept and holds only the header |
| RunLoop.NoHostNoAction | cyberpass.go:87-144 | a file with no accepted line drives no browser command, writes only the header and deletes the file |
| RunLoop.IgnoredLines | cyberpass.go:90-101 | rejected lines leave the loop's state unchanged |
| RunLoop.IgnoredLineChangesNothing | cyberpass.go:90-101 | a rejected line changes nothing: no login, no portal command and no loop variable |
| RunLoop.LoginCountZero | cyberpass.go:438 | the login count of a trace is zero iff the trace has no wait for the user name field |
| RunLoop.LoginEffectCount | cyberpass.go:436-443 | a login drives the login page exactly once |
| RunLoop.VisitsShape | cyberpass.go:109-131 | every visit a file leads to has the host-visit shape |
| RunLoop.LoggedInStaysSingle | cyberpass.go:103-107 | once logged in, later lines never log in again and only extend the trace |
| RunLoop.FreshRunLogsInOnce | cyberpass.go:103-107 | from a fresh state the first visited line logs in and no later line does; with no visited line the trace stays empty |
| RunLoop.LoginOnce | cyberpass.go:103-107 | if some line names a host, the run logs in exactly once and the trace starts with the login page's commands; otherwise the browser is never driven |
| RunLoop.VisitsTraceIsHostTraces | cyberpass.go:87-131 | the commands of the folded visits are the visits of the accepted lines, in file order |
| RunLoop.LoggedInTrace | cyberpass.go:87-132 | once logged in, a loop without a fatal stop appends the visits' commands and nothing else |
| RunLoop.FreshTrace | cyberpass.go:87-132 | from a fresh state, a loop without a fatal stop issues the login's commands once, at the first visit, and then the visits' commands |
| RunLoop.RunTraceInFileOrder | cyberpass.go:87-132 | a run without a fatal stop issues the login's commands (when some line names a host) and then each accepted host's visit, one host after the other in file order |
| RunLoop.StepLineTrace | cyberpass.go:97-131 | one iteration appends to the trace nothing for a rejected line, else the login's commands when not yet logged in, then the visit's commands unless the login failed |
| RunLoop.StepLineFatal | cyberpass.go:97-131 | the iteration that stops the run is on an accepted line and adds no inventory entry |
| RunLoop.FatalSplit | cyberpass.go:87-132 | a loop that stops fatally is the loop over a prefix without a fatal stop followed by the one iteration that stops it |
| RunLoop.LoggedInIffVisited | cyberpass.go:97-107 | without a fatal stop the loop is logged in at the end iff it was at the start or some line was visited |
| RunLoop.VisitsPrefix | cyberpass.go:87-101 | the visits of a prefix of the host file are the prefix of its visits |
| RunLoop.RunFatalPrefix | cyberpass.go:87-132 | a run that stops fatally at accepted line `k` has the file of the run over the lines before `k`, and its trace is that run's trace followed by line `k`'s iteration |
| RunLoop.RunFatalKeepsEarlierLines | cyberpass.go:87-147 | a fatal stop keeps the file, holding the header and one line per successful read of the lines before the line that stopped the run, in file order |
| RunLoop.RunFatalTrace | cyberpass.go:87-132 | a run that stops fatally at line `k` issues the login (when a line before `k` names a host), the visits of the accepted hosts before `k` in file order, and then line `k`'s iteration |
| RunLoop.VisitHost | cyberpass.go:109-131 | the outcome and the appended commands are those of the host visit specified by `HostEffect` |
| RunLoop.SelectAndRead | cyberpass.go:116-124 | the outcome and the appended commands are those of the visit from the select stage on |
| RunLoop.ReadIfGranted | cyberpass.go:120-124 | the outcome and the appended commands are those of the visit from the dropdown stage on |
| RunLoop.VisitAndRecord | cyberpass.go:109-131 | the loop variables, the trace and the fatal stop after the visit are `Record` of the specified visit |
| RunLoop.HandleLine | cyberpass.go:87-131 | the loop variables, the trace and the fatal stop after one line are `StepLine` of the specified line visit |
| RunLoop.RunInventory | cyberpass.go:37-147 | the commands issued, the file's lines, whether the file is kept, and the fatal stop are those of `Run` |

## Left out

- Timing is not modelled: the chromedp timeouts, the sleeps and the wait bounds (2, 5, 15 and 60 seconds). Each one becomes a boolean of the oracle views. For example, "the marker appears within its bound" is `requestForm`, `frontMarker` or `frontPage`. Several chromedp calls have no time limit of their own and block forever when their element never appears: the `WaitVisible` at line 353, the `Text` at 166, the `Text` and `Click` at 333 and 340, the `Click` at 381, and the `SetValue` calls at 264-310. The model gives each of them an outcome flag, so every step returns, and a program that hangs there is not represented. For the same reason, `Portal.CopyPasswordCloses` ("Close is clicked whether or not the read succeeded") covers only a read that returns.
- Which command inside a failing chromedp batch failed is not modelled. A failing batch is recorded in the trace in full. A failed login batch or reason-selection batch then stops the run with one fatal cause. A failed search batch skips the host, as the source does.
- The browser and the portal themselves are oracles (`LoginView`, `HostView`). What a page shows is an input, not something the model computes. A page element is a logical `Target`, not its CSS or XPath selector string. The two navigations a visit can make each have their own outcome: the home page fallback uses `frontNavigateOk`, and the return to the portal after a pending state or a submitted request uses `returnNavigateOk`.
- The following are not part of this model: `userInfo` (interactive prompting for the credentials), `initChromedp` (starting the browser), `openHostFile`, flag parsing, `debugPrintf`, the build-information output and `chromedp.Cancel`. The credentials and the portal URL come in through `Config`.
- Date arithmetic is not modelled. Tomorrow's date, already formatted, is the input `Config.tomorrow`. The inventory file's time-stamped name is not modelled.
- Console output is not modelled: the `fmt.Printf` messages, including the copy of each inventory line printed to standard output.
- The host file is a sequence of lines. `bufio.Scanner`'s line splitting and its read error (`scanner.Err`, line 134) are not modelled.
- An error on creating, writing or removing the inventory file is not modelled. The file is modelled as the sequence of lines written, plus a flag saying whether it is kept.
- Hostname.ToLower: maps only ASCII upper-case letters. Go's `strings.ToLower` also lower-cases non-ASCII letters. A few of these become ASCII letters: the Kelvin sign becomes `k`, and `İ` becomes `i`. On a line holding one of them, the model can reject a name that the program accepts.
- A general regular-expression engine is not modelled. Only the fixed pattern `^rh[a-z0-9]+$` is modelled, as an automaton.
- Escaping is not claimed to be idempotent. It is not, as `Inventory.EscapeTwiceDiffers` shows.
