/**
 * The tagged logger: a Modal carries a node name, an output stream, a
 * verbosity and a prefix setting, and prints messages with a "[node/tag] "
 * header when the message's mode passes the verbosity filter. An output
 * stream is modelled as the sequence of strings printed to it.
 */
module Logging {
  import opened Outcomes

  /** Message modes: a word prefix, a symbol prefix and a verbosity level. */
  datatype Mode = Prompt | Info | Alert | Error | Debug
  {
    function Prefix(): string
    {
      match this
      case Prompt => "PROMPT"
      case Info => "INFO"
      case Alert => "ALERT"
      case Error => "ERROR"
      case Debug => "DEBUG"
    }

    function Symbol(): char
    {
      match this
      case Prompt => '?'
      case Info => 'i'
      case Alert => '!'
      case Error => 'X'
      case Debug => '$'
    }

    function Level(): int
    {
      match this
      case Prompt => 0
      case Info => 0
      case Alert => 1
      case Error => 2
      case Debug => 3
    }
  }

  /** Maximum verbosity level. */
  const MODES: int := 4

  /** Largest value of a Java short, the type of the IDs. */
  const SHORT_MAX: int := 32767

  /** Largest value of a Java long. */
  const LONG_MAX: int := 9_223_372_036_854_775_807

  /** An output stream; `out` is everything printed to it, one string per call. */
  class PrintStream {
    var out: seq<string>

    constructor ()
      ensures out == []
    {
      out := [];
    }
  }

  /** The counter shared by all Modals (the static `nextID`). */
  class IdCounter {
    var nextId: int

    /** nextID starts at 10000 and never passes the largest short. */
    predicate Valid()
      reads this
    {
      10000 <= nextId <= SHORT_MAX
    }

    constructor ()
      ensures Valid() && nextId == 10000
    {
      nextId := 10000;
    }
  }

  /** A constructed Modal; its fields are what the getters return. */
  datatype Modal = Modal(id: nat, node: string, ps: PrintStream, verbosity: int, useSymbol: bool)

  // ---------------------------------------------------------------------------
  // Numbers as text

  predicate IsDigit(c: char) { '0' <= c <= '9' }

  predicate AllDigits(s: string) { forall i :: 0 <= i < |s| ==> IsDigit(s[i]) }

  /** Decimal representation of n, as Java's string concatenation writes it. */
  function NatToString(n: nat): (s: string)
    ensures |s| > 0 && AllDigits(s)
    ensures n < 10 <==> |s| == 1
    ensures |s| > 1 ==> s[0] != '0'
    decreases n
  {
    var d := ['0' + (n % 10) as char];
    if n < 10 then d else NatToString(n / 10) + d
  }

  /** 10 to the power k. */
  function Pow10(k: nat): (r: nat)
    ensures r >= 1
  {
    if k == 0 then 1 else 10 * Pow10(k - 1)
  }

  /**
   * The value of a string of decimal digits: a numeral of k digits is below
   * 10^k, and at least 10^(k-1) when it has no leading zero.
   */
  function DigitsValue(s: string): (r: nat)
    requires AllDigits(s)
    ensures r < Pow10(|s|)
    ensures |s| > 0 && s[0] != '0' ==> Pow10(|s| - 1) <= r
    decreases |s|
  {
    if s == [] then 0
    else DigitsValue(s[..|s| - 1]) * 10 + (s[|s| - 1] - '0') as nat
  }

  /** Reading the digits back gives the number, so NatToString is injective. */
  lemma {:induction false} NatToStringRoundTrip(n: nat)
    ensures DigitsValue(NatToString(n)) == n
    decreases n
  {
    var s := NatToString(n);
    if n >= 10 {
      NatToStringRoundTrip(n / 10);
      assert s[..|s| - 1] == NatToString(n / 10);
    }
  }

  /** The digits of a numeral after an optional leading sign. */
  function Unsigned(s: string): string
  {
    if |s| > 0 && (s[0] == '-' || s[0] == '+') then s[1..] else s
  }

  predicate IsNegative(s: string) { |s| > 0 && s[0] == '-' }

  /**
   * Strings Long.parseLong accepts: an optional sign, at least one ASCII
   * digit, and a value within the range of a long.
   */
  predicate ParsesAsLong(s: string)
  {
    var d := Unsigned(s);
    |d| > 0 && AllDigits(d) &&
    DigitsValue(d) <= (if IsNegative(s) then LONG_MAX + 1 else LONG_MAX)
  }

  /** The value Long.parseLong returns. */
  function LongValue(s: string): (v: int)
    requires ParsesAsLong(s)
    ensures -(LONG_MAX + 1) <= v <= LONG_MAX
  {
    var magnitude: int := DigitsValue(Unsigned(s));
    if IsNegative(s) then -magnitude else magnitude
  }

  /** The numeral of a short ID parses back to that ID. */
  lemma ParsesIdNumeral(n: nat)
    requires n <= SHORT_MAX
    ensures ParsesAsLong(NatToString(n)) && LongValue(NatToString(n)) == n
  {
    NatToStringRoundTrip(n);
    assert Unsigned(NatToString(n)) == NatToString(n) by {
      assert IsDigit(NatToString(n)[0]);
    }
  }

  /** The (byte) cast: two's complement narrowing to 8 bits. */
  function ByteCast(v: int): (b: int)
    ensures -128 <= b <= 127
    ensures (b - v) % 256 == 0
    ensures -128 <= v <= 127 ==> b == v
  {
    (v + 128) % 256 - 128
  }

  // ---------------------------------------------------------------------------
  // Case-insensitive comparison

  function UpperAscii(c: char): char
  {
    if 'a' <= c <= 'z' then (c as int - 32) as char else c
  }

  /** String.equalsIgnoreCase on ASCII letters. */
  predicate EqualsIgnoreCase(a: string, b: string)
  {
    |a| == |b| && forall i :: 0 <= i < |a| ==> UpperAscii(a[i]) == UpperAscii(b[i])
  }

  /** Whether the first six characters of the node are "Modal$" in any case. */
  predicate HasModalPrefix(node: string)
  {
    |node| >= 6 && EqualsIgnoreCase(node[..6], "Modal$")
  }

  /** The node the argument-less constructors pass: "Modal$" and the next ID. */
  function DefaultNode(id: nat): (node: string)
    ensures HasModalPrefix(node)
    ensures node[6..] == NatToString(id)
  {
    var node := "Modal$" + NatToString(id);
    assert node[..6] == "Modal$";
    node
  }

  // ---------------------------------------------------------------------------
  // Construction

  /**
   * What Modal(node, ps, verbosity, useSymbol) builds when `nextID` is `id`:
   *  - at the largest short, the error report dereferences the stream field,
   *    which is still null, and a NullPointerException is thrown;
   *  - a null stream is replaced by the default stream;
   *  - a node shorter than six characters throws IllegalArgumentException;
   *  - a "Modal$" node (in any case) whose suffix is not a long throws
   *    NumberFormatException; otherwise it becomes "Modal$" and the ID;
   *  - a verbosity above MODES becomes MODES, then it is narrowed to a byte.
   */
  function Construct(id: nat, node: string, ps: PrintStream?, defaultStream: PrintStream,
                     verbosity: int, useSymbol: bool): (r: Result<Modal>)
    requires id <= SHORT_MAX
    ensures r.Throw? <==> id == SHORT_MAX || |node| < 6 ||
                          (HasModalPrefix(node) && !ParsesAsLong(node[6..]))
    ensures r.Throw? ==> r.exception == (if id == SHORT_MAX then NullPointer
                                         else if |node| < 6 then IllegalArgument
                                         else NumberFormat)
    ensures r.Ok? ==> && r.value.id == id && r.value.useSymbol == useSymbol
                      && |r.value.node| >= 6
                      && r.value.node == (if HasModalPrefix(node) then DefaultNode(id) else node)
                      && r.value.ps == (if ps == null then defaultStream else ps)
                      && r.value.verbosity == ByteCast(Min(verbosity, MODES))
  {
    if id == SHORT_MAX then Throw(NullPointer)
    else
      var p := if ps == null then defaultStream else ps;
      if |node| < 6 then Throw(IllegalArgument)
      else if HasModalPrefix(node) && !ParsesAsLong(node[6..]) then Throw(NumberFormat)
      else
        var n := if HasModalPrefix(node) then "Modal$" + NatToString(id) else node;
        var v := if verbosity > MODES then MODES else verbosity;
        Ok(Modal(id, n, p, ByteCast(v), useSymbol))
  }

  /** Where the counter goes after a constructor call. */
  function NextIdAfter(id: int): (r: int)
    ensures id <= r <= id + 1
    ensures r == id <==> id == SHORT_MAX
    ensures id <= SHORT_MAX ==> r <= SHORT_MAX
  {
    if id == SHORT_MAX then id else id + 1
  }

  /**
   * Modal(node, ps, verbosity, useSymbol): takes the next ID before it looks
   * at the node, so a call that throws IllegalArgumentException or
   * NumberFormatException still uses one up.
   */
  method NewModal(ids: IdCounter, node: string, ps: PrintStream?, defaultStream: PrintStream,
                  verbosity: int, useSymbol: bool) returns (r: Result<Modal>)
    requires ids.Valid()
    modifies ids
    ensures ids.Valid() && ids.nextId == NextIdAfter(old(ids.nextId))
    ensures r == Construct(old(ids.nextId), node, ps, defaultStream, verbosity, useSymbol)
  {
    if ids.nextId == SHORT_MAX {
      // the error report prints on the stream field, not yet assigned
      return Throw(NullPointer);
    }
    var id: nat := ids.nextId;
    ids.nextId := ids.nextId + 1;

    var stream := ps;
    if stream == null {
      stream := defaultStream;
    }

    var name := node;
    if |name| >= 6 {
      if EqualsIgnoreCase(name[..6], "Modal$") {
        if !ParsesAsLong(name[6..]) {
          return Throw(NumberFormat);
        }
        name := "Modal$" + NatToString(id);
      }
    } else {
      return Throw(IllegalArgument);
    }

    var level := verbosity;
    if level > MODES {
      level := MODES;
    }
    return Ok(Modal(id, name, stream, ByteCast(level), useSymbol));
  }

  /**
   * Modal() and Modal(ps): the node "Modal$" and the ID about to be taken,
   * verbosity 2, word prefixes. Modal() passes the default stream.
   */
  method NewDefaultModal(ids: IdCounter, ps: PrintStream?, defaultStream: PrintStream)
    returns (r: Result<Modal>)
    requires ids.Valid()
    modifies ids
    ensures ids.Valid() && ids.nextId == NextIdAfter(old(ids.nextId))
    ensures r == Construct(old(ids.nextId), DefaultNode(old(ids.nextId)), ps, defaultStream, 2, false)
  {
    r := NewModal(ids, DefaultNode(ids.nextId), ps, defaultStream, 2, false);
  }

  /**
   * The argument-less constructors fail only when the IDs are used up, and
   * otherwise keep their node as given.
   */
  lemma DefaultConstruction(id: nat, ps: PrintStream?, defaultStream: PrintStream)
    requires id <= SHORT_MAX
    ensures var r := Construct(id, DefaultNode(id), ps, defaultStream, 2, false);
      && (r.Throw? <==> id == SHORT_MAX)
      && (r.Ok? ==> r.value == Modal(id, DefaultNode(id), if ps == null then defaultStream else ps, 2, false))
  {
    ParsesIdNumeral(id);
  }

  /**
   * Building again from what a construction stored, with the same ID, gives
   * the same Modal: every rule of the constructor is idempotent.
   */
  lemma ConstructIdempotent(id: nat, node: string, ps: PrintStream?, defaultStream: PrintStream,
                            verbosity: int, useSymbol: bool)
    requires id <= SHORT_MAX && -128 <= verbosity
    requires Construct(id, node, ps, defaultStream, verbosity, useSymbol).Ok?
    ensures var m := Construct(id, node, ps, defaultStream, verbosity, useSymbol).value;
      Construct(id, m.node, m.ps, defaultStream, m.verbosity, m.useSymbol) == Ok(m)
  {
    var m := Construct(id, node, ps, defaultStream, verbosity, useSymbol).value;
    if HasModalPrefix(node) {
      ParsesIdNumeral(id);
    }
  }

  /** A "Modal$" node in any case is renamed to "Modal$" and the ID. */
  lemma LowerCaseNodeRenamed(ps: PrintStream)
    ensures Construct(10000, "modal$7", ps, ps, 2, false) == Ok(Modal(10000, "Modal$10000", ps, 2, false))
  {
    assert "modal$7"[..6] == "modal$";
    assert HasModalPrefix("modal$7") by {
      assert forall i :: 0 <= i < 6 ==> UpperAscii("modal$"[i]) == UpperAscii("Modal$"[i]);
    }
    assert "modal$7"[6..] == "7";
    assert Unsigned("7") == "7";
    assert ParsesAsLong("7");
    assert NatToString(10000) == "10000";
    assert DefaultNode(10000) == "Modal$10000";
  }

  /** Narrowing to a byte turns a verbosity far below zero into a high one. */
  lemma NegativeVerbosityWraps(ps: PrintStream)
    ensures Construct(10000, "player", ps, ps, -129, false) == Ok(Modal(10000, "player", ps, 127, false))
  {
    PlayerIsPlainNode();
  }

  lemma PlayerIsPlainNode()
    ensures !HasModalPrefix("player")
  {
    assert UpperAscii("player"[..6][0]) != UpperAscii("Modal$"[0]);
  }

  /**
   * The constructor as the source writes it: for a null stream the error
   * report runs before the stream field is assigned, so it throws
   * NullPointerException instead of falling back to the default stream.
   */
  function ConstructAsWritten(id: nat, node: string, ps: PrintStream?, defaultStream: PrintStream,
                              verbosity: int, useSymbol: bool): (r: Result<Modal>)
    requires id <= SHORT_MAX
    ensures ps == null ==> r == Throw(NullPointer)
    ensures ps != null ==> r == Construct(id, node, ps, defaultStream, verbosity, useSymbol)
  {
    if ps == null then Throw(NullPointer) else Construct(id, node, ps, defaultStream, verbosity, useSymbol)
  }

  /** A null stream with an otherwise valid call: the code throws, the intended constructor does not. */
  lemma NullStreamDiscrepancy(defaultStream: PrintStream)
    ensures ConstructAsWritten(10000, "player", null, defaultStream, 2, false) == Throw(NullPointer)
    ensures Construct(10000, "player", null, defaultStream, 2, false) == Ok(Modal(10000, "player", defaultStream, 2, false))
  {
    PlayerIsPlainNode();
  }

  /** The intended constructor substitutes the default stream and never throws for a null one. */
  lemma NullStreamFallsBack(id: nat, node: string, defaultStream: PrintStream, verbosity: int, useSymbol: bool)
    requires id < SHORT_MAX
    ensures var r := Construct(id, node, null, defaultStream, verbosity, useSymbol);
      && r != Throw(NullPointer)
      && (r.Ok? ==> r.value.ps == defaultStream)
      && r == Construct(id, node, defaultStream, defaultStream, verbosity, useSymbol)
  {
  }

  // ---------------------------------------------------------------------------
  // Output

  /** The tag of a mode in a header: its symbol or its word prefix. */
  function Tag(m: Modal, mode: Mode): (r: string)
    ensures |r| >= 1
    ensures |r| == 1 <==> m.useSymbol
  {
    if m.useSymbol then [mode.Symbol()] else mode.Prefix()
  }

  /** Whether a message of this mode passes the verbosity filter. */
  predicate Emits(m: Modal, mode: Mode)
    ensures m.verbosity >= MODES - 1 ==> Emits(m, mode)
    ensures m.verbosity < 0 ==> !Emits(m, mode)
    ensures m.verbosity >= 0 && mode.Level() == 0 ==> Emits(m, mode)
  {
    m.verbosity >= mode.Level()
  }

  /** What print(msg) writes. */
  function PlainText(m: Modal, msg: string): string
  {
    "[" + m.node + "] " + msg
  }

  /** What print(mode, msg) writes: a "[node/tag] " header and the message, if it passes. */
  function ModeText(m: Modal, mode: Mode, msg: string): (r: Option<string>)
    ensures r.Some? <==> Emits(m, mode)
  {
    if Emits(m, mode) then Some("[" + m.node + "/" + Tag(m, mode) + "] " + msg) else None
  }

  /** What printCln(mode, msg) writes: the bare message, if it passes. */
  function ClnText(m: Modal, mode: Mode, msg: string): (r: Option<string>)
    ensures r.Some? <==> Emits(m, mode)
    ensures r.Some? ==> r.value == msg
  {
    if Emits(m, mode) then Some(msg) else None
  }

  /** The strings an optional output adds to the stream. */
  function Emitted(r: Option<string>): seq<string>
  {
    if r.Some? then [r.value] else []
  }

  /** print(msg): the node and the message can be read back from the output. */
  lemma PlainTextDecodes(m: Modal, msg: string)
    ensures var s := PlainText(m, msg);
      && |s| == |m.node| + 3 + |msg|
      && s[0] == '[' && s[1..|m.node| + 1] == m.node && s[|m.node| + 1..|m.node| + 3] == "] "
      && s[|m.node| + 3..] == msg
  {
  }

  /**
   * print(mode, msg): the header is "[", the node, "/", the tag and "] ",
   * so the node, the tag and the message can be read back from the output.
   */
  lemma ModeTextDecodes(m: Modal, mode: Mode, msg: string)
    requires Emits(m, mode)
    ensures var s := ModeText(m, mode, msg).value;
      var h := |m.node| + |Tag(m, mode)| + 4;
      && |s| == h + |msg|
      && s[0] == '[' && s[1..|m.node| + 1] == m.node && s[|m.node| + 1] == '/'
      && s[|m.node| + 2..h - 2] == Tag(m, mode) && s[h - 2..h] == "] "
      && s[h..] == msg
  {
  }

  /**
   * The verbosity a construction stores: for arguments in the byte range or
   * above it never exceeds MODES, and from MODES up every mode passes; a
   * negative argument silences every mode.
   */
  lemma ConstructedVerbosity(id: nat, node: string, ps: PrintStream?, defaultStream: PrintStream,
                             verbosity: int, useSymbol: bool, mode: Mode)
    requires id <= SHORT_MAX && -128 <= verbosity
    requires Construct(id, node, ps, defaultStream, verbosity, useSymbol).Ok?
    ensures var m := Construct(id, node, ps, defaultStream, verbosity, useSymbol).value;
      && m.verbosity <= MODES
      && (verbosity >= MODES ==> m.verbosity == MODES && Emits(m, mode))
      && (verbosity < 0 ==> !Emits(m, mode))
  {
  }

  /** At the clamp value MODES every mode passes; at verbosity 0 only PROMPT and INFO do. */
  lemma EmitsAtBounds(m: Modal, mode: Mode)
    ensures m.verbosity == MODES ==> Emits(m, mode)
    ensures m.verbosity == 0 ==> (Emits(m, mode) <==> mode == Prompt || mode == Info)
  {
  }

  /** print(msg): always writes the "[node] " header and the message. */
  method Print(m: Modal, msg: string)
    modifies m.ps
    ensures m.ps.out == old(m.ps.out) + [PlainText(m, msg)]
  {
    m.ps.out := m.ps.out + ["[" + m.node + "] " + msg];
  }

  /** print(mode, msg): the header carries the symbol or the word prefix. */
  method PrintMode(m: Modal, mode: Mode, msg: string)
    modifies m.ps
    ensures m.ps.out == old(m.ps.out) + Emitted(ModeText(m, mode, msg))
  {
    if m.verbosity >= mode.Level() {
      if m.useSymbol {
        m.ps.out := m.ps.out + ["[" + m.node + "/" + [mode.Symbol()] + "] " + msg];
      } else {
        m.ps.out := m.ps.out + ["[" + m.node + "/" + mode.Prefix() + "] " + msg];
      }
    }
  }

  /** println(msg) is print(msg + "\n"). */
  method Println(m: Modal, msg: string)
    modifies m.ps
    ensures m.ps.out == old(m.ps.out) + [PlainText(m, msg + "\n")]
  {
    Print(m, msg + "\n");
  }

  /** println(mode, msg) is print(mode, msg + "\n"). */
  method PrintlnMode(m: Modal, mode: Mode, msg: string)
    modifies m.ps
    ensures m.ps.out == old(m.ps.out) + Emitted(ModeText(m, mode, msg + "\n"))
  {
    PrintMode(m, mode, msg + "\n");
  }

  /** printCln(mode, msg): the message without a header, if it passes the filter. */
  method PrintClnMode(m: Modal, mode: Mode, msg: string)
    modifies m.ps
    ensures m.ps.out == old(m.ps.out) + Emitted(ClnText(m, mode, msg))
  {
    if m.verbosity >= mode.Level() {
      m.ps.out := m.ps.out + [msg];
    }
  }

  // ---------------------------------------------------------------------------
  // Equality

  /** equals(m): false for null, else node, stream, verbosity and useSymbol agree. */
  predicate Equals(a: Modal, m: Option<Modal>)
  {
    m.Some? && a.node == m.value.node && a.ps == m.value.ps &&
    a.verbosity == m.value.verbosity && a.useSymbol == m.value.useSymbol
  }

  /** equals ignores the ID and compares everything else; it is an equivalence. */
  lemma EqualsIgnoresOnlyId(a: Modal, b: Modal, c: Modal)
    ensures Equals(a, Some(b)) <==> a.(id := b.id) == b
    ensures !Equals(a, None)
    ensures Equals(a, Some(a))
    ensures Equals(a, Some(b)) ==> Equals(b, Some(a))
    ensures Equals(a, Some(b)) && Equals(b, Some(c)) ==> Equals(a, Some(c))
  {
  }

  /**
   * Two Modals built from a "Modal$" node under different IDs get different
   * nodes, so they are never equal whatever else they share.
   */
  lemma {:induction false} RenamedModalsNeverEqual(id1: nat, id2: nat, node: string, ps: PrintStream?,
                                                   defaultStream: PrintStream, verbosity: int, useSymbol: bool)
    requires id1 <= SHORT_MAX && id2 <= SHORT_MAX && id1 != id2 && HasModalPrefix(node)
    requires Construct(id1, node, ps, defaultStream, verbosity, useSymbol).Ok?
    requires Construct(id2, node, ps, defaultStream, verbosity, useSymbol).Ok?
    ensures !Equals(Construct(id1, node, ps, defaultStream, verbosity, useSymbol).value,
                    Some(Construct(id2, node, ps, defaultStream, verbosity, useSymbol).value))
  {
    NatToStringRoundTrip(id1);
    NatToStringRoundTrip(id2);
    assert DefaultNode(id1)[6..] != DefaultNode(id2)[6..];
  }
}
