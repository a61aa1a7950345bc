/**
 The signal dialog of the process tab: which signals it sends over any sequence of keys and
 list refreshes, to whom, and what it leaves in the audit log.
 */
module SignalDialog {
  import opened Options

  /** A process as shown in a row: its PID and the name `/proc` had for it. */
  datatype Row = Row(pid: int, rawName: string)

  datatype Key = Enter | Esc | Backspace | Up | Down | F6 | F9 | Char(c: char) | Other

  datatype Signal = SIGTERM | SIGKILL | SIGSTOP | SIGCONT | SIGHUP | SIGINT | SIGQUIT | SIGUSR1 | SIGUSR2

  const MENU := [SIGTERM, SIGKILL, SIGSTOP, SIGCONT, SIGHUP, SIGINT, SIGQUIT, SIGUSR1, SIGUSR2]

  datatype AuditAction = KillProcess | KillProcessSigkill | SuspendProcess | ResumeProcess | ReloadProcess

  function ActionOf(sig: Signal): AuditAction {
    match sig
    case SIGKILL => KillProcessSigkill
    case SIGSTOP => SuspendProcess
    case SIGCONT => ResumeProcess
    case SIGHUP => ReloadProcess
    case _ => KillProcess
  }

  /** What the system answers: may this user send signals, does the name under `/proc` still
      match, is the process found, does the signal arrive. */
  datatype Env = Env(canKill: bool, nameMatches: bool, found: bool, sent: bool)

  /** What the dialog does to the outside, and the opening of the menu on a process. */
  datatype Effect =
    | Opened(target: Row)
    | NameChecked(target: Row, ok: bool)
    | Sent(target: Row, sig: Signal, typed: string)
    | Audited(target: Row, action: AuditAction, success: bool)

  /** `mode` is 0 outside the dialog, 2 while a PID is typed and 3 in the menu of signals; mode 1
      is what is left of an older dialog. */
  datatype Dialog = Dialog(audit: bool, cursor: nat, filterMode: bool, detailMode: bool, sortMenu: bool,
                           mode: int, target: Option<Row>, input: string, menu: nat, trace: seq<Effect>)

  // ---- decimal numbers and white space ----

  predicate IsDigit(c: char) {
    '0' <= c <= '9'
  }

  predicate AllDigits(s: string) {
    forall i | 0 <= i < |s| :: IsDigit(s[i])
  }

  function DigitOf(n: nat): char
    requires n < 10
  {
    '0' + n as char
  }

  /** A number as `%d` prints it. */
  function Natural(n: nat): string {
    if n < 10 then [DigitOf(n)] else Natural(n / 10) + [DigitOf(n % 10)]
  }

  function Decimal(n: int): string {
    if n < 0 then ['-'] + Natural(-n) else Natural(n)
  }

  /** The number a row of digits stands for. */
  function Number(s: string): nat
    requires AllDigits(s)
  {
    if s == "" then 0 else Number(s[..|s| - 1]) * 10 + (s[|s| - 1] - '0') as nat
  }

  lemma {:induction false} NaturalNumber(n: nat)
    ensures AllDigits(Natural(n)) && Number(Natural(n)) == n
    decreases n
  {
    if n < 10 {
      assert Natural(n)[..0] == "";
    } else {
      NaturalNumber(n / 10);
      assert Natural(n)[..|Natural(n / 10)|] == Natural(n / 10);
    }
  }

  predicate IsSpace(c: char) {
    c == ' ' || c == '\t' || c == '\n' || c == '\r'
  }

  function TrimLeft(s: string): string {
    if s != "" && IsSpace(s[0]) then TrimLeft(s[1..]) else s
  }

  function TrimSpace(s: string): string
    decreases |s|
  {
    var t := TrimLeft(s);
    TrimRight(t)
  }

  function TrimRight(s: string): string {
    if s != "" && IsSpace(s[|s| - 1]) then TrimRight(s[..|s| - 1]) else s
  }

  // ---- the dialog as a function ----

  /** `sendSignal`: nothing is sent unless the name still matches, and every attempt past that
      check is audited. */
  function SendSignal(s: Dialog, sig: Signal, env: Env): Dialog {
    match s.target
    case None => s
    case Some(t) =>
      if !env.nameMatches then s.(trace := s.trace + [NameChecked(t, false)])
      else s.(trace := s.trace + Attempt(t, sig, s.input, env, s.audit))
  }

  function Attempt(t: Row, sig: Signal, typed: string, env: Env, audit: bool): (r: seq<Effect>)
    ensures 1 <= |r| <= 3 && r[0] == NameChecked(t, true)
  {
    [NameChecked(t, true)]
    + (if env.found then [Sent(t, sig, typed)] else [])
    + (if audit then [Audited(t, ActionOf(sig), env.found && env.sent)] else [])
  }

  function ConfirmKill(s: Dialog, env: Env): Dialog {
    match s.target
    case None => s
    case Some(t) =>
      var s' := if TrimSpace(s.input) == Decimal(t.pid) then SendSignal(s, SIGKILL, env) else s;
      s'.(mode := 0, input := "")
  }

  function StartKill(s: Dialog, rows: seq<Row>, mode: int): Dialog {
    if s.cursor < |rows| then
      s.(target := Some(rows[s.cursor]), mode := mode, input := "", menu := 0, trace := s.trace + [Opened(rows[s.cursor])])
    else s
  }

  /** A key while the PID is typed. */
  function TypeKey(s: Dialog, key: Key, env: Env): Dialog {
    match key
    case Enter => ConfirmKill(s, env)
    case Esc => s.(mode := 0, input := "")
    case Backspace => if |s.input| > 0 then s.(input := s.input[..|s.input| - 1]) else s
    case Char(c) => if IsDigit(c) then s.(input := s.input + [c]) else s
    case _ => s
  }

  /** A key in the menu of signals. */
  function MenuKey(s: Dialog, key: Key, env: Env): Dialog {
    if key == Up || key == Char('k') then if s.menu > 0 then s.(menu := s.menu - 1) else s
    else if key == Down || key == Char('j') then if s.menu < |MENU| - 1 then s.(menu := s.menu + 1) else s
    else if key == Enter && s.menu < |MENU| then
      if MENU[s.menu] == SIGKILL then s.(mode := 2, input := "") else SendSignal(s, MENU[s.menu], env).(mode := 0)
    else if key == Esc || key == Char('q') then s.(mode := 0)
    else s
  }

  /** A key outside the dialog; `rows` are the rows shown. */
  function ListKey(s: Dialog, key: Key, rows: seq<Row>, env: Env): Dialog {
    if s.sortMenu then
      if key == Enter || key == Esc || key == Char('q') || key == F6 then s.(sortMenu := false) else s
    else if s.filterMode then
      if key == Enter || key == Esc then s.(filterMode := false) else s
    else if key == Up then if s.cursor > 0 then s.(cursor := s.cursor - 1) else s
    else if key == Down || key == Char('j') then if s.cursor < |rows| - 1 then s.(cursor := s.cursor + 1) else s
    else if key == F6 then s.(sortMenu := true)
    else if key == Char('/') then s.(filterMode := true)
    else if key == Esc then s.(detailMode := false)
    else if key == Enter then s.(detailMode := !s.detailMode)
    else if (key == Char('k') || key == F9) && env.canKill then StartKill(s, rows, 3)
    else s
  }

  function HandleKey(s: Dialog, key: Key, rows: seq<Row>, env: Env): Dialog {
    if s.mode == 2 then TypeKey(s, key, env)
    else if s.mode == 3 then MenuKey(s, key, env)
    else if s.mode == 1 then
      if key == Char('y') then SendSignal(s, SIGTERM, env).(mode := 0) else s.(mode := 0, input := "")
    else ListKey(s, key, rows, env)
  }

  /** A fresh process list of `n` entries: only the cursor may move. */
  function Refresh(s: Dialog, n: nat): Dialog {
    if s.cursor >= n && n > 0 then s.(cursor := n - 1) else s
  }

  datatype Event = Pressed(key: Key, rows: seq<Row>, env: Env) | Refreshed(n: nat)

  function Handle(s: Dialog, e: Event): Dialog {
    match e
    case Pressed(key, rows, env) => HandleKey(s, key, rows, env)
    case Refreshed(n) => Refresh(s, n)
  }

  function Session(s: Dialog, events: seq<Event>): Dialog {
    if events == [] then s else Handle(Session(s, events[..|events| - 1]), events[|events| - 1])
  }

  predicate Fresh(s: Dialog) {
    s.mode == 0 && s.target == None && s.input == "" && s.menu == 0 && s.trace == []
  }

  // ---- safety ----

  /** The process the menu was last opened on. */
  function LastOpened(trace: seq<Effect>): Option<Row> {
    if trace == [] then None
    else
      var last := trace[|trace| - 1];
      if last.Opened? then Some(last.target) else LastOpened(trace[..|trace| - 1])
  }

  /** Digits have been typed that stand for this very PID. */
  predicate TypedPid(typed: string, pid: int) {
    typed != "" && AllDigits(typed) && Number(typed) == pid
  }

  /** A signal goes to the process the menu was last opened on, right after its name was checked
      successfully; a SIGKILL also needs its PID typed; with auditing a record of the right kind
      follows, and there are no other records. Nothing follows a failed check. */
  ghost predicate SafeAt(trace: seq<Effect>, audit: bool, i: nat)
    requires i < |trace|
  {
    match trace[i]
    case Opened(_) => true
    case NameChecked(t, ok) =>
      && LastOpened(trace[..i]) == Some(t)
      && (ok && audit ==> (i + 1 < |trace| && trace[i + 1].Audited?) || (i + 2 < |trace| && trace[i + 1].Sent? && trace[i + 2].Audited?))
    case Sent(t, sig, typed) =>
      && i > 0 && trace[i - 1] == NameChecked(t, true) && LastOpened(trace[..i]) == Some(t)
      && (sig == SIGKILL ==> TypedPid(typed, t.pid))
      && (audit ==> i + 1 < |trace| && trace[i + 1].Audited?)
    case Audited(t, action, success) =>
      && audit && i > 0
      && (trace[i - 1] == NameChecked(t, true)
          || (trace[i - 1].Sent? && trace[i - 1].target == t && action == ActionOf(trace[i - 1].sig)))
      && (success ==> trace[i - 1].Sent?)
  }

  ghost predicate Safe(trace: seq<Effect>, audit: bool) {
    forall i | 0 <= i < |trace| :: SafeAt(trace, audit, i)
  }

  function One(b: bool): nat {
    if b then 1 else 0
  }

  /** Attempts: the name checks passed. */
  function Attempts(trace: seq<Effect>): nat {
    if trace == [] then 0
    else Attempts(trace[..|trace| - 1]) + One(trace[|trace| - 1].NameChecked? && trace[|trace| - 1].ok)
  }

  function Signals(trace: seq<Effect>): nat {
    if trace == [] then 0 else Signals(trace[..|trace| - 1]) + One(trace[|trace| - 1].Sent?)
  }

  function Audits(trace: seq<Effect>): nat {
    if trace == [] then 0 else Audits(trace[..|trace| - 1]) + One(trace[|trace| - 1].Audited?)
  }

  /** Exactly one record for each attempt when auditing is wired, and none without; no more signals
      than attempts. */
  predicate Accounted(trace: seq<Effect>, audit: bool) {
    Audits(trace) == (if audit then Attempts(trace) else 0) && Signals(trace) <= Attempts(trace)
  }

  /** What holds at every moment: the mode is 0, 2 or 3, with a target unless it is 0; only digits
      have been typed; what was done is safe and accounted for. */
  ghost predicate Consistent(s: Dialog) {
    && s.mode in {0, 2, 3} && (s.mode != 0 ==> s.target.Some?)
    && s.menu < |MENU| && AllDigits(s.input)
    && s.target == LastOpened(s.trace)
    && Safe(s.trace, s.audit) && Accounted(s.trace, s.audit)
  }

  lemma CountNext(trace: seq<Effect>, e: Effect)
    ensures Attempts(trace + [e]) == Attempts(trace) + One(e.NameChecked? && e.ok)
    ensures Signals(trace + [e]) == Signals(trace) + One(e.Sent?)
    ensures Audits(trace + [e]) == Audits(trace) + One(e.Audited?)
  {
    assert (trace + [e])[..|trace|] == trace;
  }

  /** What one attempt adds. */
  lemma CountAttempt(trace: seq<Effect>, t: Row, sig: Signal, typed: string, env: Env, audit: bool)
    ensures var after := trace + Attempt(t, sig, typed, env, audit);
            && Attempts(after) == Attempts(trace) + 1
            && Signals(after) == Signals(trace) + One(env.found)
            && Audits(after) == Audits(trace) + One(audit)
  {
    var one := trace + [NameChecked(t, true)];
    var two := if env.found then one + [Sent(t, sig, typed)] else one;
    var three := if audit then two + [Audited(t, ActionOf(sig), env.found && env.sent)] else two;
    CountNext(trace, NameChecked(t, true));
    CountNext(one, Sent(t, sig, typed));
    CountNext(two, Audited(t, ActionOf(sig), env.found && env.sent));
    assert trace + Attempt(t, sig, typed, env, audit) == three;
  }

  /** The trace only grows, by one attempt at the most. */
  predicate AtMostOne(was: seq<Effect>, now: seq<Effect>) {
    && was <= now && Attempts(now) <= Attempts(was) + 1
    && Signals(now) <= Signals(was) + 1 && Audits(now) <= Audits(was) + 1
  }

  lemma SafePrefix(trace: seq<Effect>, more: seq<Effect>, audit: bool, i: nat)
    requires i < |trace| && SafeAt(trace, audit, i)
    ensures SafeAt(trace + more, audit, i)
  {
    assert (trace + more)[..i] == trace[..i];
  }

  lemma LastOpenedNext(trace: seq<Effect>, e: Effect)
    ensures LastOpened(trace + [e]) == if e.Opened? then Some(e.target) else LastOpened(trace)
  {
    assert (trace + [e])[..|trace|] == trace;
  }

  lemma SafeOne(trace: seq<Effect>, e: Effect, audit: bool)
    requires Safe(trace, audit)
    requires e.Opened? || (e.NameChecked? && !e.ok && LastOpened(trace) == Some(e.target))
    ensures Safe(trace + [e], audit)
  {
    forall i | 0 <= i < |trace| + 1 ensures SafeAt(trace + [e], audit, i) {
      if i < |trace| {
        SafePrefix(trace, [e], audit, i);
      } else {
        assert (trace + [e])[..i] == trace;
      }
    }
  }

  lemma {:induction false} LastOpenedStays(trace: seq<Effect>, more: seq<Effect>)
    requires forall i | 0 <= i < |more| :: !more[i].Opened?
    ensures LastOpened(trace + more) == LastOpened(trace)
    decreases |more|
  {
    if more == [] {
      assert trace + more == trace;
    } else {
      var front, last := more[..|more| - 1], more[|more| - 1];
      assert trace + more == (trace + front) + [last];
      LastOpenedNext(trace + front, last);
      LastOpenedStays(trace, front);
    }
  }

  lemma SafeAttempt(trace: seq<Effect>, t: Row, sig: Signal, typed: string, env: Env, audit: bool)
    requires Safe(trace, audit) && LastOpened(trace) == Some(t) && (sig == SIGKILL ==> TypedPid(typed, t.pid))
    ensures Safe(trace + Attempt(t, sig, typed, env, audit), audit)
  {
    var a := Attempt(t, sig, typed, env, audit);
    forall i | 0 <= i < |trace| + |a| ensures SafeAt(trace + a, audit, i) {
      if i < |trace| {
        SafePrefix(trace, a, audit, i);
      } else {
        LastOpenedStays(trace, a[..i - |trace|]);
        assert (trace + a)[..i] == trace + a[..i - |trace|];
      }
    }
  }

  /** Digits have no white space around them to trim. */
  lemma TrimDigits(s: string)
    requires AllDigits(s)
    ensures TrimSpace(s) == s
  {
  }

  lemma TypedDecimal(s: string, pid: int)
    requires AllDigits(s) && TrimSpace(s) == Decimal(pid)
    ensures TypedPid(s, pid)
  {
    TrimDigits(s);
    if pid >= 0 {
      NaturalNumber(pid);
    }
  }

  /** What `sendSignal` adds to the trace. */
  function SendEffects(t: Row, sig: Signal, typed: string, env: Env, audit: bool): seq<Effect> {
    if env.nameMatches then Attempt(t, sig, typed, env, audit) else [NameChecked(t, false)]
  }

  /** The counts after it: a signal and a record only behind a passed check. */
  lemma CountSend(trace: seq<Effect>, t: Row, sig: Signal, typed: string, env: Env, audit: bool)
    ensures var now := trace + SendEffects(t, sig, typed, env, audit);
            && Attempts(now) == Attempts(trace) + One(env.nameMatches)
            && Signals(now) == Signals(trace) + One(env.nameMatches && env.found)
            && Audits(now) == Audits(trace) + One(env.nameMatches && audit)
  {
    if env.nameMatches {
      CountAttempt(trace, t, sig, typed, env, audit);
    } else {
      CountNext(trace, NameChecked(t, false));
    }
  }

  lemma SendTraceSafe(trace: seq<Effect>, t: Row, sig: Signal, typed: string, env: Env, audit: bool)
    requires Safe(trace, audit) && LastOpened(trace) == Some(t) && (sig == SIGKILL ==> TypedPid(typed, t.pid))
    ensures var now := trace + SendEffects(t, sig, typed, env, audit);
            Safe(now, audit) && LastOpened(now) == LastOpened(trace)
  {
    if env.nameMatches {
      SafeAttempt(trace, t, sig, typed, env, audit);
      LastOpenedStays(trace, Attempt(t, sig, typed, env, audit));
    } else {
      SafeOne(trace, NameChecked(t, false), audit);
      LastOpenedNext(trace, NameChecked(t, false));
    }
  }

  /** The dialog with a longer trace. */
  lemma LongerTrace(s: Dialog, now: seq<Effect>)
    requires Consistent(s) && Safe(now, s.audit) && LastOpened(now) == LastOpened(s.trace) && Accounted(now, s.audit)
    ensures Consistent(s.(trace := now))
  {
  }

  /** Sending a signal, confirmed if need be, is safe: one check, and only after it passed one signal,
      if the process is found, and one record, if auditing is wired. */
  lemma SendSafe(s: Dialog, sig: Signal, env: Env)
    requires Consistent(s) && s.target.Some? && (sig == SIGKILL ==> TypedPid(s.input, s.target.value.pid))
    ensures var now := SendSignal(s, sig, env).trace;
            && Consistent(SendSignal(s, sig, env)) && SendSignal(s, sig, env) == s.(trace := now)
            && s.trace <= now
            && Attempts(now) == Attempts(s.trace) + One(env.nameMatches)
            && Signals(now) == Signals(s.trace) + One(env.nameMatches && env.found)
            && Audits(now) == Audits(s.trace) + One(env.nameMatches && s.audit)
  {
    var t := s.target.value;
    SendTraceSafe(s.trace, t, sig, s.input, env, s.audit);
    CountSend(s.trace, t, sig, s.input, env, s.audit);
    LongerTrace(s, s.trace + SendEffects(t, sig, s.input, env, s.audit));
  }

  lemma ConfirmSafe(s: Dialog, env: Env)
    requires Consistent(s)
    ensures Consistent(ConfirmKill(s, env)) && AtMostOne(s.trace, ConfirmKill(s, env).trace)
  {
    if s.target.Some? && TrimSpace(s.input) == Decimal(s.target.value.pid) {
      TypedDecimal(s.input, s.target.value.pid);
      SendSafe(s, SIGKILL, env);
    }
  }

  lemma StartSafe(s: Dialog, rows: seq<Row>)
    requires Consistent(s)
    ensures Consistent(StartKill(s, rows, 3)) && AtMostOne(s.trace, StartKill(s, rows, 3).trace)
  {
    if s.cursor < |rows| {
      CountNext(s.trace, Opened(rows[s.cursor]));
      SafeOne(s.trace, Opened(rows[s.cursor]), s.audit);
      LastOpenedNext(s.trace, Opened(rows[s.cursor]));
    }
  }

  lemma TypeSafe(s: Dialog, key: Key, env: Env)
    requires Consistent(s) && s.mode == 2
    ensures Consistent(TypeKey(s, key, env)) && AtMostOne(s.trace, TypeKey(s, key, env).trace)
  {
    if key == Enter {
      ConfirmSafe(s, env);
    }
  }

  /** Changes of mode, input and menu line that no trace shows. */
  lemma Calm(s: Dialog, mode: int, input: string, menu: nat)
    requires Consistent(s) && mode in {0, 2, 3} && (mode != 0 ==> s.target.Some?) && menu < |MENU| && AllDigits(input)
    ensures Consistent(s.(mode := mode, input := input, menu := menu))
  {
  }

  /** Every key in the menu but Enter moves the line or leaves. */
  lemma MenuMoves(s: Dialog, key: Key, env: Env)
    requires s.mode == 3 && s.menu < |MENU| && (key != Enter || MENU[s.menu] == SIGKILL)
    ensures var s' := MenuKey(s, key, env);
            s' == s.(mode := s'.mode, input := s'.input, menu := s'.menu) && s'.mode in {0, 2, 3}
                && s'.menu < |MENU| && (s'.input == s.input || s'.input == "")
  {
  }

  lemma MenuSafe(s: Dialog, key: Key, env: Env)
    requires Consistent(s) && s.mode == 3
    ensures Consistent(MenuKey(s, key, env)) && AtMostOne(s.trace, MenuKey(s, key, env).trace)
  {
    var sig := MENU[s.menu];
    if key == Enter && sig != SIGKILL {
      SendSafe(s, sig, env);
      var sent := SendSignal(s, sig, env);
      Calm(sent, 0, sent.input, sent.menu);
      assert MenuKey(s, key, env) == sent.(mode := 0, input := sent.input, menu := sent.menu);
    } else {
      MenuMoves(s, key, env);
      var s' := MenuKey(s, key, env);
      Calm(s, s'.mode, s'.input, s'.menu);
    }
  }

  lemma ListSafe(s: Dialog, key: Key, rows: seq<Row>, env: Env)
    requires Consistent(s) && s.mode == 0
    ensures Consistent(ListKey(s, key, rows, env)) && AtMostOne(s.trace, ListKey(s, key, rows, env).trace)
  {
    var s' := ListKey(s, key, rows, env);
    ListMoves(s, key, rows, env);
    if s' == StartKill(s, rows, 3) {
      StartSafe(s, rows);
    } else {
      Browsing(s, s'.cursor, s'.filterMode, s'.detailMode, s'.sortMenu);
    }
  }

  /** A key outside the dialog opens the menu or moves about in the list. */
  lemma ListMoves(s: Dialog, key: Key, rows: seq<Row>, env: Env)
    ensures var s' := ListKey(s, key, rows, env);
            s' == StartKill(s, rows, 3)
            || s' == s.(cursor := s'.cursor, filterMode := s'.filterMode, detailMode := s'.detailMode, sortMenu := s'.sortMenu)
  {
  }

  lemma Browsing(s: Dialog, cursor: nat, filterMode: bool, detailMode: bool, sortMenu: bool)
    requires Consistent(s)
    ensures Consistent(s.(cursor := cursor, filterMode := filterMode, detailMode := detailMode, sortMenu := sortMenu))
  {
  }

  /** Every key keeps the dialog consistent, and attempts one signal at the most. */
  lemma KeySafe(s: Dialog, key: Key, rows: seq<Row>, env: Env)
    requires Consistent(s)
    ensures Consistent(HandleKey(s, key, rows, env)) && AtMostOne(s.trace, HandleKey(s, key, rows, env).trace)
  {
    if s.mode == 2 {
      TypeSafe(s, key, env);
    } else if s.mode == 3 {
      MenuSafe(s, key, env);
    } else {
      ListSafe(s, key, rows, env);
    }
  }

  /** Over every sequence of keys, rows shown, answers of the system and list refreshes: every
      signal goes to the process highlighted when the menu was opened and only right after a
      successful name check, SIGKILL only with its PID typed, and there are exactly as many audit
      records as attempts past the check. */
  lemma {:induction false} SessionSafe(s: Dialog, events: seq<Event>)
    requires Fresh(s)
    ensures Consistent(Session(s, events))
  {
    if events != [] {
      var e := events[|events| - 1];
      SessionSafe(s, events[..|events| - 1]);
      if e.Pressed? {
        KeySafe(Session(s, events[..|events| - 1]), e.key, e.rows, e.env);
      }
    }
  }

  /** In the menu only Enter does anything to the outside: it attempts the signal chosen and
      ends the dialog; SIGKILL is not sent from the menu. */
  lemma MenuEffects(s: Dialog, key: Key, env: Env)
    requires Consistent(s) && s.mode == 3
    ensures var s' := MenuKey(s, key, env);
            s'.trace == s.trace || (key == Enter && s'.mode == 0 && MENU[s.menu] != SIGKILL
                && s'.trace == SendSignal(s, MENU[s.menu], env).trace)
  {
  }

  /** While a PID is typed only Enter does: it attempts SIGKILL, or not, and ends the dialog. */
  lemma TypeEffects(s: Dialog, key: Key, env: Env)
    requires Consistent(s) && s.mode == 2
    ensures var s' := TypeKey(s, key, env);
            s'.trace == s.trace || (key == Enter && s'.mode == 0 && TypedPid(s.input, s.target.value.pid)
                && s'.trace == SendSignal(s, SIGKILL, env).trace)
  {
    if key == Enter && TrimSpace(s.input) == Decimal(s.target.value.pid) {
      TypedDecimal(s.input, s.target.value.pid);
    }
  }

  /** Outside the dialog a key can only open the menu, with permission, on the row under the
      cursor. */
  lemma ListEffects(s: Dialog, key: Key, rows: seq<Row>, env: Env)
    ensures var s' := ListKey(s, key, rows, env);
            || s'.trace == s.trace
            || (env.canKill && s.cursor < |rows| && s'.trace == s.trace + [Opened(rows[s.cursor])]
                && s'.mode == 3 && s'.target == Some(rows[s.cursor]))
  {
  }

  /** The signal a key attempts, if any: with Enter, the one chosen in the menu, unless that is
      SIGKILL, or SIGKILL when the digits typed are the PID of the target. */
  function Attempted(s: Dialog, key: Key): Option<Signal> {
    if key != Enter || s.target == None then None
    else if s.mode == 3 && s.menu < |MENU| && MENU[s.menu] != SIGKILL then Some(MENU[s.menu])
    else if s.mode == 2 && TypedPid(s.input, s.target.value.pid) then Some(SIGKILL)
    else None
  }

  /** All that a key does to the outside: it attempts that signal, or opens the menu on the row
      under the cursor, with permission and no dialog open, or does nothing. */
  lemma KeyEffects(s: Dialog, key: Key, rows: seq<Row>, env: Env)
    requires Consistent(s)
    ensures var s', sig := HandleKey(s, key, rows, env), Attempted(s, key);
            || s'.trace == s.trace
            || (sig.Some? && s'.mode == 0 && s'.trace == SendSignal(s, sig.value, env).trace)
            || (s.mode == 0 && env.canKill && s.cursor < |rows| && s'.trace == s.trace + [Opened(rows[s.cursor])]
                && s'.mode == 3 && s'.target == Some(rows[s.cursor]))
  {
    if s.mode == 2 {
      TypeEffects(s, key, env);
    } else if s.mode == 3 {
      MenuEffects(s, key, env);
    } else {
      ListEffects(s, key, rows, env);
    }
  }
}
