/**
 The process tab: its fields, and the methods that change them key by key.
 */
module ProcessTab {
  import opened Options
  import opened Sequences
  import opened SignalDialog

  class ProcessTab {
    const audit: bool
    var cursor: nat
    var filterMode: bool
    var detailMode: bool
    var sortMenuMode: bool
    var killMode: int
    var killTarget: Option<Row>
    var killInput: string
    var signalCursor: nat
    var trace: seq<Effect>

    function State(): Dialog
      reads this
    {
      Dialog(audit, cursor, filterMode, detailMode, sortMenuMode, killMode, killTarget, killInput, signalCursor, trace)
    }

    constructor (audit: bool)
      ensures Fresh(State()) && this.audit == audit
    {
      this.audit := audit;
      cursor, signalCursor, killMode := 0, 0, 0;
      filterMode, detailMode, sortMenuMode := false, false, false;
      killTarget, killInput, trace := None, "", [];
    }

    /** A new process list has arrived. */
    method Update(n: nat)
      modifies this`cursor
      ensures State() == Refresh(old(State()), n)
      ensures old(Consistent(State())) ==> Consistent(State())
    {
      if cursor >= n && n > 0 {
        cursor := n - 1;
      }
    }

    method Start(rows: seq<Row>, mode: int)
      modifies this
      ensures State() == StartKill(old(State()), rows, mode)
    {
      if cursor < |rows| {
        var snap := rows[cursor];
        killTarget := Some(snap);
        killMode := mode;
        killInput := "";
        signalCursor := 0;
        trace := trace + [Opened(snap)];
      }
    }

    method Send(sig: Signal, env: Env)
      modifies this`trace
      ensures State() == SendSignal(old(State()), sig, env)
    {
      if killTarget == None {
        return;
      }
      var t := killTarget.value;
      if !env.nameMatches {
        trace := trace + [NameChecked(t, false)];
        return;
      }
      var effects := [NameChecked(t, true)];
      if env.found {
        effects := effects + [Effect.Sent(t, sig, killInput)];
      }
      if audit {
        effects := effects + [Audited(t, ActionOf(sig), env.found && env.sent)];
      }
      AttemptParts(t, sig, killInput, env, audit);
      trace := trace + effects;
    }

    method Confirm(env: Env)
      modifies this
      ensures State() == ConfirmKill(old(State()), env)
    {
      if killTarget == None {
        return;
      }
      var pidStr := Decimal(killTarget.value.pid);
      if TrimSpace(killInput) == pidStr {
        Send(SIGKILL, env);
      }
      killMode, killInput := 0, "";
    }

    /** A key while the PID is typed. */
    method TypePid(key: Key, env: Env)
      modifies this
      ensures State() == TypeKey(old(State()), key, env)
    {
      match key
      case Enter => Confirm(env);
      case Esc => killMode, killInput := 0, "";
      case Backspace =>
        if |killInput| > 0 {
          killInput := killInput[..|killInput| - 1];
        }
      case Char(c) =>
        if IsDigit(c) {
          killInput := killInput + [c];
        }
      case _ =>
    }

    /** A key in the menu of signals. */
    method ChooseSignal(key: Key, env: Env)
      requires signalCursor < |MENU|
      modifies this
      ensures State() == MenuKey(old(State()), key, env)
    {
      if key == Up || key == Char('k') {
        if signalCursor > 0 {
          signalCursor := signalCursor - 1;
        }
      } else if key == Down || key == Char('j') {
        if signalCursor < |MENU| - 1 {
          signalCursor := signalCursor + 1;
        }
      } else if key == Enter {
        var sig := MENU[signalCursor];
        if sig == SIGKILL {
          killMode := 2;
          killInput := "";
        } else {
          Send(sig, env);
          killMode := 0;
        }
      } else if key == Esc || key == Char('q') {
        killMode := 0;
      }
    }

    /** A key outside the dialog. */
    method Browse(key: Key, rows: seq<Row>, env: Env)
      modifies this
      ensures State() == ListKey(old(State()), key, rows, env)
    {
      if sortMenuMode {
        if key == Enter || key == Esc || key == Char('q') || key == F6 {
          sortMenuMode := false;
        }
      } else if filterMode {
        if key == Enter || key == Esc {
          filterMode := false;
        }
      } else if key == Up {
        if cursor > 0 {
          cursor := cursor - 1;
        }
      } else if key == Down || key == Char('j') {
        if cursor < |rows| - 1 {
          cursor := cursor + 1;
        }
      } else if key == F6 {
        sortMenuMode := true;
      } else if key == Char('/') {
        filterMode := true;
      } else if key == Esc {
        detailMode := false;
      } else if key == Enter {
        detailMode := !detailMode;
      } else if (key == Char('k') || key == F9) && env.canKill {
        Start(rows, 3);
      }
    }

    /** `handleKey`: the dialog, while it is open, takes every key. What was done stays in the trace,
        and one attempt at the most is added to it. */
    method Press(key: Key, rows: seq<Row>, env: Env)
      requires signalCursor < |MENU|
      modifies this
      ensures State() == HandleKey(old(State()), key, rows, env)
      ensures old(Consistent(State())) ==> Consistent(State()) && AtMostOne(old(trace), trace)
    {
      ghost var was := State();
      if killMode == 2 {
        TypePid(key, env);
      } else if killMode == 3 {
        ChooseSignal(key, env);
      } else if killMode == 1 {
        if key == Char('y') {
          Send(SIGTERM, env);
          killMode := 0;
        } else {
          killMode, killInput := 0, "";
        }
      } else {
        Browse(key, rows, env);
      }
      if Consistent(was) {
        KeySafe(was, key, rows, env);
      }
    }
  }

  /** The tab under the message loop: whatever keys and refreshes arrive, it stays consistent,
      so everything it has done to the outside is safe. */
  method Serve(audit: bool, events: seq<Event>) returns (tab: ProcessTab)
    ensures fresh(tab) && tab.audit == audit && Consistent(tab.State())
    ensures Safe(tab.trace, audit) && Accounted(tab.trace, audit)
  {
    tab := new ProcessTab(audit);
    ghost var start := tab.State();
    assert events[..0] == [];
    for i := 0 to |events|
      invariant fresh(tab) && tab.audit == audit && Fresh(start)
      invariant tab.State() == Session(start, events[..i])
    {
      TakeNext(events, i);
      SessionSafe(start, events[..i]);
      match events[i]
      case Pressed(key, rows, env) => tab.Press(key, rows, env);
      case Refreshed(n) => tab.Update(n);
    }
    SessionSafe(start, events[..|events|]);
  }

  lemma AttemptParts(t: Row, sig: Signal, typed: string, env: Env, audit: bool)
    ensures [NameChecked(t, true)] + [] == [NameChecked(t, true)]
    ensures Attempt(t, sig, typed, env, audit) ==
      if env.found && audit then [NameChecked(t, true), Sent(t, sig, typed), Audited(t, ActionOf(sig), env.sent)]
      else if env.found then [NameChecked(t, true), Sent(t, sig, typed)]
      else if audit then [NameChecked(t, true), Audited(t, ActionOf(sig), false)]
      else [NameChecked(t, true)]
  {
  }
}
