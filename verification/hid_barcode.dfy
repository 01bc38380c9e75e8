/** The keyboard-wedge barcode listener: a USB/HID scanner types the code
    as a burst of key presses ended by Enter. Key presses and the expiry
    of the 100 ms reset timer are explicit events. */
module HidBarcode {
  import opened Results

  /** The reset delay set after every character, in milliseconds. */
  const ResetDelayMs := 100

  /** The key name of the terminating key. */
  const EnterKey := "Enter"

  /** The characters typed since the last Enter or reset, and whether the
      reset timer is pending. */
  datatype Listener = Listener(buffer: string, timerPending: bool)

  /** A `keypress` with its `key` name, or the expiry of the pending timer. */
  datatype Event = KeyPress(key: string) | TimerFired

  /** The state of a freshly mounted listener. */
  const Initial := Listener("", false)

  /** In every reachable state a non-empty buffer has a pending timer. */
  predicate Inv(l: Listener) {
    |l.buffer| > 0 ==> l.timerPending
  }

  /** A character JavaScript strings hold in one UTF-16 code unit. */
  predicate InBmp(c: char) {
    c as int < 0x1_0000
  }

  /** `s.length` in JavaScript: UTF-16 code units, two for each character
      outside the Basic Multilingual Plane. */
  function Utf16Length(s: string): (n: nat)
    ensures n >= |s|
    ensures n == |s| <==> forall i | 0 <= i < |s| :: InBmp(s[i])
  {
    if |s| == 0 then 0
    else
      assert forall i | 1 <= i < |s| :: s[1..][i - 1] == s[i];
      (if InBmp(s[0]) then 1 else 2) + Utf16Length(s[1..])
  }

  /** A key has `length === 1` exactly when it is one character of the
      Basic Multilingual Plane. */
  lemma SingleUnitKey(key: string)
    ensures Utf16Length(key) == 1 <==> |key| == 1 && InBmp(key[0])
  {
    if |key| == 1 {
      assert key[1..] == [];
    }
  }

  /** One event: the next listener state and the barcode handed to `onScan`, if any. */
  function Step(l: Listener, e: Event): (r: (Listener, Option<string>))
    ensures r.1.Some? <==> e == KeyPress(EnterKey) && |l.buffer| > 0
    ensures r.1.Some? ==> r.1.value == l.buffer && r.0.buffer == ""
    ensures e.KeyPress? && e.key != EnterKey && Utf16Length(e.key) != 1 ==> r.0 == l
    ensures e.KeyPress? && Utf16Length(e.key) == 1 ==> r.0 == Listener(l.buffer + e.key, true)
    ensures e.TimerFired? && l.timerPending ==> r.0 == Listener("", false)
    ensures Inv(l) ==> Inv(r.0)
  {
    match e
    case KeyPress(key) =>
      if key == EnterKey then
        if |l.buffer| > 0 then (l.(buffer := ""), Some(l.buffer)) else (l, None)
      else if Utf16Length(key) == 1 then
        (Listener(l.buffer + key, true), None)
      else
        (l, None)
    case TimerFired =>
      if l.timerPending then (Listener("", false), None) else (l, None)
  }

  /** The barcodes handed over by one step. */
  function Emitted(out: Option<string>): seq<string> {
    if out.Some? then [out.value] else []
  }

  /** A run of events: the final state and every barcode emitted, in order. */
  function Run(l: Listener, events: seq<Event>): (Listener, seq<string>)
    decreases |events|
  {
    if |events| == 0 then (l, [])
    else
      var step := Step(l, events[0]);
      var rest := Run(step.0, events[1..]);
      (rest.0, Emitted(step.1) + rest.1)
  }

  /** Running two event sequences back to back is running their concatenation. */
  lemma {:induction false} RunAppend(l: Listener, a: seq<Event>, b: seq<Event>)
    ensures Run(l, a + b).0 == Run(Run(l, a).0, b).0
    ensures Run(l, a + b).1 == Run(l, a).1 + Run(Run(l, a).0, b).1
    decreases |a|
  {
    if |a| == 0 {
      assert a + b == b;
    } else {
      assert (a + b)[0] == a[0] && (a + b)[1..] == a[1..] + b;
      RunAppend(Step(l, a[0]).0, a[1..], b);
    }
  }

  /** The invariant holds after any run from a state satisfying it, and no
      emitted barcode is empty. */
  lemma {:induction false} RunKeepsInv(l: Listener, events: seq<Event>)
    requires Inv(l)
    ensures Inv(Run(l, events).0)
    ensures forall k | 0 <= k < |Run(l, events).1| :: |Run(l, events).1[k]| > 0
    decreases |events|
  {
    if |events| > 0 {
      RunKeepsInv(Step(l, events[0]).0, events[1..]);
    }
  }

  /** The key presses a scanner sends for the characters of `code`. */
  function Typed(code: string): (r: seq<Event>)
    ensures |r| == |code|
    ensures forall i | 0 <= i < |r| :: r[i] == KeyPress([code[i]])
  {
    seq(|code|, i requires 0 <= i < |code| => KeyPress([code[i]]))
  }

  /** The characters of `code` are all one code unit long, as barcode
      characters are. */
  predicate BmpText(code: string) {
    forall i | 0 <= i < |code| :: InBmp(code[i])
  }

  /** Typing characters appends them to the buffer, emits nothing, and leaves
      the timer pending if at least one character was typed. */
  lemma {:induction false} TypingBuffers(l: Listener, code: string)
    requires BmpText(code)
    ensures Run(l, Typed(code)).0 == Listener(l.buffer + code, l.timerPending || |code| > 0)
    ensures Run(l, Typed(code)).1 == []
    decreases |code|
  {
    if |code| == 0 {
      assert l.buffer + code == l.buffer;
    } else {
      var e := Typed(code);
      assert e[0] == KeyPress([code[0]]);
      assert InBmp(code[0]);
      SingleUnitKey([code[0]]);
      assert BmpText(code[1..]) by {
        forall i | 0 <= i < |code| - 1 ensures InBmp(code[1..][i]) {
          assert code[1..][i] == code[i + 1];
        }
      }
      assert e[1..] == Typed(code[1..]);
      var l1 := Listener(l.buffer + [code[0]], true);
      assert Step(l, e[0]) == (l1, None);
      TypingBuffers(l1, code[1..]);
      assert Run(l, e) == (Run(l1, e[1..]).0, [] + Run(l1, e[1..]).1);
      assert l.buffer + [code[0]] + code[1..] == l.buffer + code;
    }
  }

  /** A scan read into an idle listener is emitted once, exactly as typed, and
      leaves the buffer empty. */
  lemma Scan(code: string)
    requires |code| > 0 && BmpText(code)
    ensures Run(Initial, Typed(code) + [KeyPress(EnterKey)]).0 == Listener("", true)
    ensures Run(Initial, Typed(code) + [KeyPress(EnterKey)]).1 == [code]
  {
    TypingBuffers(Initial, code);
    RunAppend(Initial, Typed(code), [KeyPress(EnterKey)]);
    var full := Listener("" + code, true);
    assert "" + code == code;
    assert Step(full, KeyPress(EnterKey)) == (Listener("", true), Some(code));
    assert [KeyPress(EnterKey)][1..] == [];
    assert Run(full, [KeyPress(EnterKey)]).1 == [code] + [];
  }

  /** Characters followed by a timer expiry are forgotten: the next scan
      emits only its own characters. */
  lemma TimeoutDropsPartialScan(l: Listener, partial: string, code: string)
    requires Inv(l) && BmpText(partial) && BmpText(code)
    ensures Run(l, Typed(partial) + [TimerFired] + Typed(code) + [KeyPress(EnterKey)]).1
         == (if |code| > 0 then [code] else [])
  {
    var first := Typed(partial) + [TimerFired];
    TypingBuffers(l, partial);
    RunAppend(l, Typed(partial), [TimerFired]);
    var m := Run(l, first).0;
    assert m == Listener("", false) by {
      assert Run(l, first).0 == Step(Listener(l.buffer + partial, l.timerPending || |partial| > 0), TimerFired).0;
    }
    assert Run(l, first).1 == [];
    TypingBuffers(m, code);
    RunAppend(m, Typed(code), [KeyPress(EnterKey)]);
    assert "" + code == code;
    RunAppend(l, first, Typed(code) + [KeyPress(EnterKey)]);
    assert first + (Typed(code) + [KeyPress(EnterKey)])
        == Typed(partial) + [TimerFired] + Typed(code) + [KeyPress(EnterKey)];
  }

  /** Key presses with multi-character names (Shift, Tab, ArrowUp, …) other
      than Enter are ignored entirely. */
  lemma {:induction false} NamedKeysIgnored(l: Listener, events: seq<Event>)
    requires forall k | 0 <= k < |events| ::
      events[k].KeyPress? && events[k].key != EnterKey && Utf16Length(events[k].key) != 1
    ensures Run(l, events).0 == l && Run(l, events).1 == []
    decreases |events|
  {
    if |events| > 0 {
      assert Step(l, events[0]) == (l, None);
      NamedKeysIgnored(l, events[1..]);
      assert Emitted(None) == [];
    }
  }

  /** A key press of one character outside the Basic Multilingual Plane has
      `length` 2, so it is ignored like a named key. */
  lemma AstralKeyIgnored(l: Listener, c: char)
    requires !InBmp(c)
    ensures Step(l, KeyPress([c])) == (l, None)
  {
    SingleUnitKey([c]);
  }
}
