/**
 * The head-button dispatch restated as an ordered table of (button index,
 * position) bindings scanned front to back, first press wins. It is an
 * independent definition of the callback's else-if chain, and the lemmas
 * here show the two agree, on what they read as well as on what they return.
 */
module Priority {

  import opened Wrappers
  import opened Messages
  import opened TeleopConfig
  import opened Teleop

  datatype Binding = Binding(button: Int32, position: HeadPos)

  /** The configured buttons in the order the callback tests them. */
  function PriorityTable(cfg: Config): seq<Binding> {
    [Binding(cfg.buttonHeadDown, Down), Binding(cfg.buttonHeadMid, Mid), Binding(cfg.buttonHeadUp, Up)]
  }

  /** Every button the scan looks at is in range; the scan stops at the first press. */
  predicate ScanReadable(table: seq<Binding>, buttons: seq<Int32>)
    decreases |table|
  {
    |table| == 0 ||
    (InRange(buttons, table[0].button) &&
     (buttons[table[0].button] != 1 ==> ScanReadable(table[1..], buttons)))
  }

  /** The position of the first binding whose button equals 1, if any. */
  function FirstPressed(table: seq<Binding>, buttons: seq<Int32>): Option<HeadPos>
    requires ScanReadable(table, buttons)
    decreases |table|
  {
    if |table| == 0 then None
    else if buttons[table[0].button] == 1 then Some(table[0].position)
    else FirstPressed(table[1..], buttons)
  }

  /** Binding `k` is pressed, and every binding before it was read and is not. */
  predicate IsFirstPressed(table: seq<Binding>, buttons: seq<Int32>, k: int) {
    && 0 <= k < |table|
    && InRange(buttons, table[k].button)
    && buttons[table[k].button] == 1
    && forall j :: 0 <= j < k ==> InRange(buttons, table[j].button) && buttons[table[j].button] != 1
  }

  /** Nothing in the table is pressed, and every binding was read. */
  predicate NonePressed(table: seq<Binding>, buttons: seq<Int32>) {
    forall j :: 0 <= j < |table| ==> InRange(buttons, table[j].button) && buttons[table[j].button] != 1
  }

  /** The scan answers Some exactly at the first pressed binding. */
  lemma {:induction false} FirstPressedFindsFirst(table: seq<Binding>, buttons: seq<Int32>, k: int)
    requires ScanReadable(table, buttons)
    ensures IsFirstPressed(table, buttons, k) ==> FirstPressed(table, buttons) == Some(table[k].position)
    ensures FirstPressed(table, buttons).Some? ==>
      exists i :: IsFirstPressed(table, buttons, i) && FirstPressed(table, buttons) == Some(table[i].position)
    decreases |table|
  {
    if |table| > 0 && buttons[table[0].button] != 1 {
      var rest := table[1..];
      FirstPressedFindsFirst(rest, buttons, k - 1);
      if IsFirstPressed(table, buttons, k) {
        assert k != 0;
        assert IsFirstPressed(rest, buttons, k - 1) by {
          forall j | 0 <= j < k - 1
            ensures InRange(buttons, rest[j].button) && buttons[rest[j].button] != 1
          {
            assert rest[j] == table[j + 1];
          }
        }
      }
      if FirstPressed(table, buttons).Some? {
        var i :| IsFirstPressed(rest, buttons, i) && FirstPressed(rest, buttons) == Some(rest[i].position);
        assert IsFirstPressed(table, buttons, i + 1) by {
          forall j | 0 <= j < i + 1
            ensures InRange(buttons, table[j].button) && buttons[table[j].button] != 1
          {
            if j > 0 {
              assert table[j] == rest[j - 1];
            }
          }
        }
      }
    } else if |table| > 0 {
      assert IsFirstPressed(table, buttons, 0);
      if IsFirstPressed(table, buttons, k) {
        assert k == 0;
      }
    }
  }

  /** The scan answers None exactly when nothing in the table is pressed. */
  lemma {:induction false} FirstPressedNone(table: seq<Binding>, buttons: seq<Int32>)
    ensures ScanReadable(table, buttons) && FirstPressed(table, buttons) == None <==> NonePressed(table, buttons)
    decreases |table|
  {
    if |table| > 0 {
      var rest := table[1..];
      FirstPressedNone(rest, buttons);
      if NonePressed(table, buttons) {
        assert InRange(buttons, table[0].button) && buttons[table[0].button] != 1;
        assert NonePressed(rest, buttons) by {
          forall j | 0 <= j < |rest|
            ensures InRange(buttons, rest[j].button) && buttons[rest[j].button] != 1
          {
            assert rest[j] == table[j + 1];
          }
        }
      }
      if ScanReadable(table, buttons) && FirstPressed(table, buttons) == None {
        forall j | 0 <= j < |table|
          ensures InRange(buttons, table[j].button) && buttons[table[j].button] != 1
        {
          if j > 0 {
            assert table[j] == rest[j - 1];
          }
        }
      }
    }
  }

  /**
   * The else-if chain of the callback is the scan of the priority table:
   * it is defined on exactly the same button arrays and picks the same
   * position.
   */
  lemma HeadRequestIsTableScan(cfg: Config, buttons: seq<Int32>)
    ensures HeadButtonsReadable(cfg, buttons) <==> ScanReadable(PriorityTable(cfg), buttons)
    ensures HeadButtonsReadable(cfg, buttons) ==>
      HeadRequest(cfg, buttons) == FirstPressed(PriorityTable(cfg), buttons)
  {
    var t := PriorityTable(cfg);
    var t1, t2 := t[1..], t[1..][1..];
    assert t1[0] == t[1] && t2[0] == t[2] && t2[1..] == [];
    assert ScanReadable(t2, buttons) <==> InRange(buttons, cfg.buttonHeadUp);
    assert ScanReadable(t1, buttons) <==>
      InRange(buttons, cfg.buttonHeadMid) && (buttons[cfg.buttonHeadMid] != 1 ==> ScanReadable(t2, buttons));
    if HeadButtonsReadable(cfg, buttons) && buttons[cfg.buttonHeadDown] != 1 {
      assert FirstPressed(t, buttons) == FirstPressed(t1, buttons);
      if buttons[cfg.buttonHeadMid] != 1 {
        assert FirstPressed(t1, buttons) == FirstPressed(t2, buttons);
        assert FirstPressed(t2[1..], buttons) == None;
      }
    }
  }

  /**
   * The step's head request is the position of the first pressed configured
   * button in priority order, and there is none exactly when no configured
   * button is pressed.
   */
  lemma StepHeadIsFirstPressed(cfg: Config, joy: Joy, p: HeadPos)
    requires Readable(cfg, joy)
    ensures Step(cfg, joy).1 == Some(p) <==>
      exists k :: IsFirstPressed(PriorityTable(cfg), joy.buttons, k) && PriorityTable(cfg)[k].position == p
    ensures Step(cfg, joy).1 == None <==> NonePressed(PriorityTable(cfg), joy.buttons)
  {
    var t := PriorityTable(cfg);
    HeadRequestIsTableScan(cfg, joy.buttons);
    FirstPressedNone(t, joy.buttons);
    FirstPressedFindsFirst(t, joy.buttons, 0);
    forall k | IsFirstPressed(t, joy.buttons, k)
      ensures FirstPressed(t, joy.buttons) == Some(t[k].position)
    {
      FirstPressedFindsFirst(t, joy.buttons, k);
    }
  }
}
