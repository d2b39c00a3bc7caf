/** What the sanitizer does to each kind of character and control sequence, between safe text and any other text. */
module SanitizerLaws {
  import opened Sequences
  import opened Sanitizer

  // ---- UTF-8 (section 3 of RFC 3629) ----

  predicate Scalar(code: nat) { code < 0xD800 || 0xE000 <= code <= 0x10FFFF }

  function Encode(code: nat): (s: Bytes)
    requires Scalar(code)
    ensures 1 <= |s| <= 4
  {
    if code < 0x80 then [code]
    else if code < 0x800 then [0xC0 + code / 0x40, 0x80 + code % 0x40]
    else if code < 0x10000 then [0xE0 + code / 0x1000, 0x80 + code / 0x40 % 0x40, 0x80 + code % 0x40]
    else [0xF0 + code / 0x40000, 0x80 + code / 0x1000 % 0x40, 0x80 + code / 0x40 % 0x40, 0x80 + code % 0x40]
  }

  lemma Digits3(x: nat, y: nat, z: nat)
    requires y < 0x40 && z < 0x40
    ensures var code := x * 0x1000 + y * 0x40 + z;
      code / 0x1000 == x && code / 0x40 % 0x40 == y && code % 0x40 == z
  {
    var code := x * 0x1000 + y * 0x40 + z;
    assert code / 0x40 == x * 0x40 + y;
  }

  lemma Digits4(w: nat, x: nat, y: nat, z: nat)
    requires x < 0x40 && y < 0x40 && z < 0x40
    ensures var code := w * 0x40000 + x * 0x1000 + y * 0x40 + z;
      code / 0x40000 == w && code / 0x1000 % 0x40 == x && code / 0x40 % 0x40 == y && code % 0x40 == z
  {
    var code := w * 0x40000 + x * 0x1000 + y * 0x40 + z;
    assert code / 0x1000 == w * 0x40 + x;
    assert code / 0x40 == w * 0x1000 + x * 0x40 + y;
    assert code / 0x40 % 0x40 == y;
  }

  /** What decodes is the encoding of the code point it decodes to. */
  lemma DecodedEncodes(s: Bytes)
    requires s != [] && Decode(s).Rune?
    ensures var d := Decode(s); Scalar(d.code) && |Encode(d.code)| == d.size && Encode(d.code) == s[..d.size]
  {
    var d := Decode(s);
    if d.size == 3 {
      Digits3(s[0] - 0xE0, Low(s[1]), Low(s[2]));
    } else if d.size == 4 {
      Digits4(s[0] - 0xF0, Low(s[1]), Low(s[2]), Low(s[3]));
    }
  }

  /** And every encoding decodes to its code point, whatever follows. */
  lemma EncodedDecodes(code: nat, rest: Bytes)
    requires Scalar(code)
    ensures Decode(Encode(code) + rest) == Rune(code, |Encode(code)|)
  {
    var e := Encode(code);
    var s := e + rest;
    assert forall k :: 0 <= k < |e| ==> s[k] == e[k];
    Digits(code);
    if code < 0x800 {
    } else if code < 0x10000 {
      assert SecondOk(e[0], e[1]);
    } else {
      assert SecondOk(e[0], e[1]);
    }
  }

  lemma Digits(code: nat)
    ensures code == code / 0x40 * 0x40 + code % 0x40
    ensures code / 0x40 == code / 0x1000 * 0x40 + code / 0x40 % 0x40
    ensures code / 0x1000 == code / 0x40000 * 0x40 + code / 0x1000 % 0x40
  {
  }

  /** The decoder is UTF-8: it finds exactly the scalar value whose encoding stands first, if any. */
  lemma DecodesExactly(s: Bytes, code: nat)
    requires s != [] && Scalar(code)
    ensures Encode(code) <= s <==> Decode(s) == Rune(code, |Encode(code)|)
  {
    if Encode(code) <= s {
      EncodedDecodes(code, s[|Encode(code)|..]);
      assert s == Encode(code) + s[|Encode(code)|..];
    }
    if Decode(s).Rune? { DecodedEncodes(s); }
  }

  /** A byte is undecodable exactly when no encoding stands there. */
  lemma InvalidExactly(s: Bytes)
    requires s != []
    ensures Decode(s).Invalid? <==> forall code: nat :: Scalar(code) ==> !(Encode(code) <= s)
  {
    if Decode(s).Rune? {
      DecodedEncodes(s);
      assert Encode(Decode(s).code) <= s;
    } else {
      forall code: nat | Scalar(code) ensures !(Encode(code) <= s) { DecodesExactly(s, code); }
    }
  }

  // ---- what a prefix makes of the rest ----

  /** From the start `c` writes `piece` and leads back to the normal state; so it does behind safe text. */
  lemma Replaced(a: Bytes, c: Bytes, piece: Bytes, b: Bytes, n: nat)
    requires Safe(a) && Clean(c + b, 0, Normal, 0) == piece + Clean(c + b, |c|, Normal, n)
    ensures Sanitized(a + (c + b)) == a + (piece + Sanitized(b))
  {
    hide *;
    assert a[0..] == a;
    SafePrefix(a, 0, c + b, 0);
    CleanShifted(a, c + b, 0, Normal, 0);
    CleanShifted(c, b, 0, Normal, n);
    NormalForgets(b, 0, n, 0);
    SanitizedIs(a + (c + b));
    SanitizedIs(b);
  }

  /** The same by position: up to `k` the text becomes `piece`, and the normal state goes on there. */
  lemma ReplacedTo(a: Bytes, s: Bytes, k: nat, piece: Bytes, b: Bytes, n: nat)
    requires Safe(a) && k <= |s| && s[k..] == b && Clean(s, 0, Normal, 0) == piece + Clean(s, k, Normal, n)
    ensures Sanitized(a + s) == a + (piece + Sanitized(b))
  {
    hide *;
    assert s == s[..k] + b;
    Replaced(a, s[..k], piece, b, n);
  }

  lemma DroppedTo(a: Bytes, s: Bytes, k: nat, b: Bytes, n: nat)
    requires Safe(a) && k <= |s| && s[k..] == b && Clean(s, 0, Normal, 0) == Clean(s, k, Normal, n)
    ensures Sanitized(a + s) == a + Sanitized(b)
  {
    hide *;
    ConcatNil(Clean(s, k, Normal, n));
    ReplacedTo(a, s, k, [], b, n);
    ConcatNil(Sanitized(b));
  }

  // ---- line breaks ----

  /** Each of CR LF, a lone CR, and LF is one line break; a tab stays. */
  lemma LineBreaksStay(a: Bytes, b: Bytes)
    requires Safe(a)
    ensures Sanitized(a + ([CR, LF] + b)) == a + ([LF] + Sanitized(b))
    ensures Sanitized(a + ([LF] + b)) == a + ([LF] + Sanitized(b))
    ensures Sanitized(a + ([TAB] + b)) == a + ([TAB] + Sanitized(b))
    ensures b == [] || b[0] != LF ==> Sanitized(a + ([CR] + b)) == a + ([LF] + Sanitized(b))
  {
    var pair, one := [CR, LF] + b, [CR] + b;
    assert pair[0] == CR && pair[1] == LF;
    assert one[0] == CR && one[1..] == b;
    assert b != [] ==> one[1] == b[0];
    assert NormalTurn(pair, 0, 0) == Turn(1, Normal, 0, []) && NormalTurn(pair, 1, 0) == Turn(2, Normal, 0, [LF]);
    assert NormalTurn([LF] + b, 0, 0) == Turn(1, Normal, 0, [LF]);
    assert NormalTurn([TAB] + b, 0, 0) == Turn(1, Normal, 0, [TAB]);
    assert b == [] || b[0] != LF ==> NormalTurn(one, 0, 0) == Turn(1, Normal, 0, [LF]);
    NormalIs(pair, 0, 0);
    NormalIs(pair, 1, 0);
    NormalIs([LF] + b, 0, 0);
    NormalIs([TAB] + b, 0, 0);
    NormalIs(one, 0, 0);
    hide *;
    ConcatNil([LF] + Clean(pair, 2, Normal, 0));
    Replaced(a, [CR, LF], [LF], b, 0);
    Replaced(a, [LF], [LF], b, 0);
    Replaced(a, [TAB], [TAB], b, 0);
    if b == [] || b[0] != LF { Replaced(a, [CR], [LF], b, 0); }
  }

  lemma NormalIs(s: Bytes, i: nat, n: nat)
    requires i < |s|
    ensures var t := NormalTurn(s, i, n);
      i < t.next <= |s| && Clean(s, i, Normal, n) == t.piece + Clean(s, t.next, t.state, t.seqLen)
  {
    CleanIs(s, i, Normal, n);
    hide NormalTurn;
    hide Clean;
  }

  // ---- single characters that vanish ----

  /** The C1 controls that open a control sequence or a control string. */
  predicate Opener(code: nat) { code in {0x9B, 0x9D, 0x90, 0x98, 0x9E, 0x9F} }

  /**
   In front of `b`, `c` is one character the terminal must not see: a C0 control that is no white space
   and no ESC, DEL, an undecodable byte, a bidirectional override, or a C1 control that opens nothing.
   */
  ghost predicate Unwanted(c: Bytes, b: Bytes) {
    || (|c| == 1 && ((c[0] < 0x20 && c[0] !in {TAB, LF, CR, ESC}) || c[0] == DEL))
    || (|c| == 1 && Decode(c + b).Invalid?)
    || exists code: nat :: Scalar(code) && c == Encode(code) && (Bidi(code) || (C1(code) && !Opener(code)))
  }

  /** Exactly this one character vanishes. */
  lemma CharacterVanishes(a: Bytes, c: Bytes, b: Bytes)
    requires Safe(a) && Unwanted(c, b)
    ensures Sanitized(a + (c + b)) == a + Sanitized(b)
  {
    UnwantedTurn(c, b);
    hide *;
    NormalIs(c + b, 0, 0);
    Replaced(a, c, [], b, 0);
    ConcatNil(Sanitized(b));
  }

  lemma UnwantedTurn(c: Bytes, b: Bytes)
    requires Unwanted(c, b)
    ensures c != [] && NormalTurn(c + b, 0, 0) == Turn(|c|, Normal, 0, [])
  {
    var s := c + b;
    assert c != [] ==> s[0] == c[0];
    assert s[0..] == s;
    if exists code: nat :: Scalar(code) && c == Encode(code) && (Bidi(code) || (C1(code) && !Opener(code))) {
      var code: nat :| Scalar(code) && c == Encode(code) && (Bidi(code) || (C1(code) && !Opener(code)));
      EncodedDecodes(code, b);
      LateFirst(code);
    } else if |c| == 1 && Decode(s).Invalid? {
      assert c[0] >= 0x80;
    }
    hide Decode;
    hide Encode;
  }

  /** Beyond ASCII the first byte is none of the ASCII controls. */
  lemma LateFirst(code: nat)
    requires Scalar(code) && code >= 0x80
    ensures Encode(code)[0] >= 0xC0
  {
  }

  // ---- control sequences and control strings ----

  /** The bytes that open a sequence, the state they lead to, and how much of its length they count for. */
  predicate Opens(o: Bytes, state: State, n: nat) {
    || (o == [ESC, '[' as int] && state == Csi && n == 2)
    || (o == [0xC2, 0x9B] && state == Csi && n == 1)
    || (o == [ESC, ']' as int] && state == Osc && n == 2)
    || (o == [0xC2, 0x9D] && state == Osc && n == 1)
    || (|o| == 2 && o[0] == ESC && o[1] in {'P' as int, '_' as int, '^' as int, 'X' as int} && state == Text && n == 2)
    || (|o| == 2 && o[0] == 0xC2 && o[1] in {0x90, 0x98, 0x9E, 0x9F} && state == Text && n == 1)
  }

  /** The longest sequence, opener included, before it is given up. */
  function Longest(state: State): nat { if state == Csi then 128 else 2048 }

  /** A byte an open sequence swallows. */
  predicate SwallowedAt(s: Bytes, k: nat, state: State)
    requires k < |s|
  {
    && s[k] != ESC && s[k] != LF
    && if state == Csi then !(0x40 <= s[k] <= 0x7E)
       else s[k] != BEL && !(s[k] == 0xC2 && k + 1 < |s| && s[k + 1] == 0x9C)
  }

  predicate Inside(state: State, p: Bytes) { forall k :: 0 <= k < |p| ==> SwallowedAt(p, k, state) }

  /** What ends it: a final byte, or a string terminator, one byte or two; ESC and most other bytes end a string too. */
  predicate Closes(state: State, e: Bytes) {
    if state == Csi then |e| == 1 && 0x40 <= e[0] <= 0x7E
    else
      || e == [BEL] || e == [0xC2, 0x9C]
      || (|e| == 2 && e[0] == ESC && e[1] !in {'[' as int, ']' as int, ESC})
  }

  lemma OpenerTurns(o: Bytes, rest: Bytes, state: State, n: nat)
    requires Opens(o, state, n)
    ensures o[0] == ESC ==>
      && NormalTurn(o + rest, 0, 0) == Turn(1, Escape, 1, [])
      && EscapeTurn(o + rest, 1, 1) == Turn(2, state, n, [])
    ensures o[0] != ESC ==> NormalTurn(o + rest, 0, 0) == Turn(2, state, n, [])
  {
    var s := o + rest;
    assert s[0] == o[0] && s[1] == o[1];
    assert s[0..] == s;
    if o[0] != ESC { assert Decode(s) == Rune(o[1], 2); }
  }

  lemma Opened(o: Bytes, rest: Bytes, state: State, n: nat)
    requires Opens(o, state, n)
    ensures |o| == 2 && state in {Csi, Osc, Text} && n <= 2
    ensures Clean(o + rest, 0, Normal, 0) == Clean(o + rest, 2, state, n)
  {
    OpenerTurns(o, rest, state, n);
    var s := o + rest;
    NormalIs(s, 0, 0);
    if o[0] == ESC { Silent(s, 1, Escape, 1, EscapeTurn(s, 1, 1)); }
    hide NormalTurn;
    hide EscapeTurn;
    hide Clean;
    var t := NormalTurn(s, 0, 0);
    ConcatNil(Clean(s, t.next, t.state, t.seqLen));
  }

  /** The turn over one byte inside an open sequence. */
  lemma InsideTurn(s: Bytes, i: nat, state: State, n: nat)
    requires i < |s| && state in {Csi, Osc, Text} && n < Longest(state) && SwallowedAt(s, i, state)
    ensures Advance(s, i, state, n) == Turn(i + 1, state, n + 1, [])
  {
    if state != Csi { NoTerminator(s[i..]); }
  }

  /** A code point U+009C stands only where its two bytes stand. */
  lemma NoTerminator(s: Bytes)
    requires s != [] && !(s[0] == 0xC2 && 1 < |s| && s[1] == 0x9C)
    ensures Decode(s).Rune? ==> Decode(s).code != 0x9C
  {
  }

  /** The body is swallowed byte by byte. */
  lemma {:induction false} BodyScanned(s: Bytes, i: nat, m: nat, state: State, n: nat)
    requires i + m <= |s| && state in {Csi, Osc, Text} && n + m <= Longest(state)
    requires forall k :: i <= k < i + m ==> SwallowedAt(s, k, state)
    ensures Clean(s, i, state, n) == Clean(s, i + m, state, n + m)
    decreases m
  {
    if m > 0 {
      InsideTurn(s, i, state, n);
      hide *;
      Silent(s, i, state, n, Turn(i + 1, state, n + 1, []));
      BodyScanned(s, i + 1, m - 1, state, n + 1);
    }
  }

  /** An open sequence and its body, up to what follows. */
  lemma OpenedAndScanned(o: Bytes, p: Bytes, rest: Bytes, state: State, n: nat)
    requires Opens(o, state, n) && Inside(state, p) && n + |p| <= Longest(state)
    requires state != Csi && p != [] && p[|p| - 1] == 0xC2 && rest != [] ==> rest[0] != 0x9C
    ensures Clean(o + (p + rest), 0, Normal, 0) == Clean(o + (p + rest), 2 + |p|, state, n + |p|)
    ensures |o| == 2 && state in {Csi, Osc, Text} && n <= 2
  {
    hide *;
    var s := o + (p + rest);
    Opened(o, p + rest, state, n);
    forall k | 2 <= k < 2 + |p| ensures SwallowedAt(s, k, state) { StandsThere(o, p, rest, state, k - 2); }
    BodyScanned(s, 2, |p|, state, n);
  }

  lemma StandsThere(o: Bytes, p: Bytes, rest: Bytes, state: State, k: nat)
    requires |o| == 2 && Inside(state, p) && k < |p|
    requires state != Csi && p[|p| - 1] == 0xC2 && rest != [] ==> rest[0] != 0x9C
    ensures SwallowedAt(o + (p + rest), 2 + k, state)
  {
    var s := o + (p + rest);
    assert SwallowedAt(p, k, state) && s[2 + k] == p[k];
    if 3 + k < |s| { assert s[3 + k] == if k + 1 < |p| then p[k + 1] else rest[0]; }
  }

  lemma ClosingTurns(s: Bytes, i: nat, e: Bytes, state: State, n: nat)
    requires i + |e| <= |s| && s[i..i + |e|] == e && Closes(state, e) && n <= Longest(state)
    requires state in {Csi, Osc, Text} && (e == [0xC2, 0x9C] ==> n < Longest(state))
    ensures |e| == 1 || e[0] == 0xC2 ==> Advance(s, i, state, n) == Turn(i + |e|, Normal, n + 1, [])
    ensures |e| != 1 && e[0] != 0xC2 ==>
      && |e| == 2 && Advance(s, i, state, n) == Turn(i + 1, OscEscape, n + 1, [])
      && Advance(s, i + 1, OscEscape, n + 1) == Turn(i + 2, Normal, n + 2, [])
  {
    assert s[i] == e[0];
    if |e| == 2 { assert s[i + 1] == e[1] && s[i..][0] == e[0] && s[i..][1] == e[1]; }
    if e == [0xC2, 0x9C] { assert Decode(s[i..]) == Rune(0x9C, 2); }
  }

  function CountAfter(e: Bytes, n: nat): nat { if |e| == 1 || e == [0xC2, 0x9C] then n + 1 else n + 2 }

  lemma Closed(s: Bytes, i: nat, e: Bytes, state: State, n: nat)
    requires i + |e| <= |s| && s[i..i + |e|] == e && Closes(state, e) && n <= Longest(state)
    requires state in {Csi, Osc, Text} && (e == [0xC2, 0x9C] ==> n < Longest(state))
    ensures Clean(s, i, state, n) == Clean(s, i + |e|, Normal, CountAfter(e, n))
  {
    ClosingTurns(s, i, e, state, n);
    assert CountAfter(e, n) == if |e| == 1 || e[0] == 0xC2 then n + 1 else n + 2;
    hide *;
    if |e| == 1 || e[0] == 0xC2 {
      Silent(s, i, state, n, Turn(i + |e|, Normal, n + 1, []));
    } else {
      Silent(s, i, state, n, Turn(i + 1, OscEscape, n + 1, []));
      Silent(s, i + 1, OscEscape, n + 1, Turn(i + 2, Normal, n + 2, []));
    }
  }

  /**
   A sequence that is opened, with 7 or 8 bits, and closed within its longest length vanishes as a
   whole, with its body and its terminator, and nothing else does.
   */
  lemma SequenceVanishes(a: Bytes, o: Bytes, p: Bytes, e: Bytes, b: Bytes, state: State, n: nat)
    requires Safe(a) && Opens(o, state, n) && Inside(state, p) && Closes(state, e)
    requires n + |p| <= Longest(state) && (e == [0xC2, 0x9C] ==> n + |p| < Longest(state))
    ensures Sanitized(a + (o + (p + (e + b)))) == a + Sanitized(b)
  {
    hide *;
    ClosesFirst(state, e);
    FirstOf(e, b);
    OpenedAndScanned(o, p, e + b, state, n);
    Slices(o, p, e, b);
    Closed(o + (p + (e + b)), 2 + |p|, e, state, n + |p|);
    DroppedTo(a, o + (p + (e + b)), 2 + |p| + |e|, b, CountAfter(e, n + |p|));
  }

  lemma FirstOf(e: Bytes, b: Bytes)
    requires e != []
    ensures e + b != [] && (e + b)[0] == e[0]
  {
  }

  lemma ClosesFirst(state: State, e: Bytes)
    requires Closes(state, e)
    ensures e != [] && e[0] != 0x9C
  {
  }

  lemma Slices(o: Bytes, p: Bytes, e: Bytes, b: Bytes)
    requires |o| == 2
    ensures var s, k := o + (p + (e + b)), 2 + |p| + |e|; k <= |s| && s[2 + |p|..k] == e && s[k..] == b
  {
  }

  /** A line feed ends an open sequence and stays: a stray opener costs at most the rest of its line. */
  lemma LineFeedRescues(a: Bytes, o: Bytes, p: Bytes, b: Bytes, state: State, n: nat)
    requires Safe(a) && Opens(o, state, n) && Inside(state, p) && n + |p| <= Longest(state)
    ensures Sanitized(a + (o + (p + ([LF] + b)))) == a + ([LF] + Sanitized(b))
  {
    hide *;
    OpenedState(o, state, n);
    LineFeedTurn(o, p, b, state, n + |p|);
    FirstOf([LF], b);
    NoCut();
    OpenedAndScanned(o, p, [LF] + b, state, n);
    Slices(o, p, [LF], b);
    ReplacedTo(a, o + (p + ([LF] + b)), 3 + |p|, [LF], b, n + |p| + 1);
  }

  lemma NoCut()
    ensures LF != 0x9C && ESC != 0x9C
  {
  }

  lemma OpenedState(o: Bytes, state: State, n: nat)
    requires Opens(o, state, n)
    ensures |o| == 2 && state in {Csi, Osc, Text} && n <= 2
  {
  }

  lemma LineFeedTurn(o: Bytes, p: Bytes, b: Bytes, state: State, n: nat)
    requires |o| == 2 && state in {Csi, Osc, Text}
    ensures var s := o + (p + ([LF] + b));
      3 + |p| <= |s| && Clean(s, 2 + |p|, state, n) == [LF] + Clean(s, 3 + |p|, Normal, n + 1)
  {
    var s := o + (p + ([LF] + b));
    assert s[2 + |p|] == LF;
    CleanIs(s, 2 + |p|, state, n);
    assert Advance(s, 2 + |p|, state, n) == Turn(3 + |p|, Normal, n + 1, [LF]);
    hide *;
  }

  /** A body of the longest length gives the sequence up with the next byte it swallows. */
  lemma OverlongGivenUp(a: Bytes, o: Bytes, p: Bytes, b: Bytes, state: State, n: nat)
    requires Safe(a) && Opens(o, state, n) && Inside(state, p) && n + |p| == Longest(state) + 1
    ensures Sanitized(a + (o + (p + b))) == a + Sanitized(b)
  {
    hide *;
    OpenedState(o, state, n);
    LongestIs(state);
    var front, last := p[..|p| - 1], p[|p| - 1..];
    assert front + (last + b) == p + b && |last| == 1 && last[0] == p[|p| - 1];
    InsideParts(state, p);
    FirstOf(last, b);
    OpenedAndScanned(o, front, last + b, state, n);
    OverlongTurn(o, p, b, state);
    Slices(o, p, [], b);
    ConcatNil(b);
    DroppedTo(a, o + (p + b), 2 + |p|, b, Longest(state) + 1);
  }

  lemma LongestIs(state: State)
    ensures 128 <= Longest(state)
  {
  }

  lemma InsideParts(state: State, p: Bytes)
    requires Inside(state, p) && p != []
    ensures Inside(state, p[..|p| - 1])
    ensures state != Csi && |p| > 1 && p[|p| - 2] == 0xC2 ==> p[|p| - 1] != 0x9C
    ensures p[..|p| - 1] != [] ==> p[..|p| - 1][|p| - 2] == p[|p| - 2]
  {
    var front := p[..|p| - 1];
    forall k | 0 <= k < |front| ensures SwallowedAt(front, k, state) { assert SwallowedAt(p, k, state); }
    if |p| > 1 { assert SwallowedAt(p, |p| - 2, state); }
  }

  lemma OverlongTurn(o: Bytes, p: Bytes, b: Bytes, state: State)
    requires |o| == 2 && state in {Csi, Osc, Text} && Inside(state, p) && p != []
    ensures var s, n := o + (p + b), Longest(state);
      2 + |p| <= |s| && Clean(s, 1 + |p|, state, n) == Clean(s, 2 + |p|, Normal, n + 1)
  {
    var s := o + (p + b);
    assert s[1 + |p|] == p[|p| - 1] && SwallowedAt(p, |p| - 1, state);
    assert Advance(s, 1 + |p|, state, Longest(state)) == Turn(2 + |p|, Normal, Longest(state) + 1, []);
    hide *;
    Silent(s, 1 + |p|, state, Longest(state), Turn(2 + |p|, Normal, Longest(state) + 1, []));
  }

  /** What is still open at the end of the text vanishes. */
  lemma UnfinishedVanishes(a: Bytes, o: Bytes, p: Bytes, state: State, n: nat)
    requires Safe(a) && Opens(o, state, n) && Inside(state, p) && n + |p| <= Longest(state)
    ensures Sanitized(a + (o + p)) == a
  {
    hide *;
    ConcatNil(p);
    OpenedAndScanned(o, p, [], state, n);
    CleanEnd(o + p, state, n + |p|);
    assert a[0..] == a;
    SafePrefix(a, 0, o + p, 0);
    CleanShifted(a, o + p, 0, Normal, 0);
    SanitizedIs(a + (o + p));
    ConcatNil(a);
  }

  /** ESC in front of a byte that opens nothing vanishes together with that byte, even a line feed. */
  lemma EscapePairVanishes(a: Bytes, x: Byte, b: Bytes)
    requires Safe(a) && x !in {'[' as int, ']' as int, 'P' as int, '_' as int, '^' as int, 'X' as int, ESC}
    ensures Sanitized(a + ([ESC, x] + b)) == a + Sanitized(b)
  {
    var s := [ESC, x] + b;
    assert s[0] == ESC && s[1] == x;
    assert Advance(s, 0, Normal, 0) == Turn(1, Escape, 1, []) && Advance(s, 1, Escape, 1) == Turn(2, Normal, 2, []);
    hide *;
    Silent(s, 0, Normal, 0, Turn(1, Escape, 1, []));
    Silent(s, 1, Escape, 1, Turn(2, Normal, 2, []));
    ConcatNil(Clean(s, 2, Normal, 2));
    Replaced(a, [ESC, x], [], b, 2);
    ConcatNil(Sanitized(b));
  }

  /** An ESC inside a control sequence, or after another ESC, starts over. */
  lemma EscapeStartsOver(a: Bytes, o: Bytes, p: Bytes, b: Bytes, n: nat)
    requires Safe(a) && Opens(o, Csi, n) && Inside(Csi, p) && n + |p| <= Longest(Csi)
    ensures Sanitized(a + (o + (p + ([ESC] + b)))) == Sanitized(a + ([ESC] + b))
    ensures Sanitized(a + ([ESC] + ([ESC] + b))) == Sanitized(a + ([ESC] + b))
  {
    hide *;
    OpenedState(o, Csi, n);
    FirstOf([ESC], b);
    OpenedAndScanned(o, p, [ESC] + b, Csi, n);
    EscapeFound(o, p, b, n + |p|);
    OneEscape(b);
    Slices(o, p, [ESC], b);
    SameTails(a, o + (p + ([ESC] + b)), 3 + |p|, [ESC] + b, 1, b, Escape, 1);
    SameTails(a, [ESC] + ([ESC] + b), 2, [ESC] + b, 1, b, Escape, 1);
  }

  lemma EscapeFound(o: Bytes, p: Bytes, b: Bytes, n: nat)
    requires |o| == 2
    ensures var s := o + (p + ([ESC] + b));
      3 + |p| <= |s| && Clean(s, 2 + |p|, Csi, n) == Clean(s, 3 + |p|, Escape, 1)
  {
    var s := o + (p + ([ESC] + b));
    assert s[2 + |p|] == ESC;
    assert Advance(s, 2 + |p|, Csi, n) == Turn(3 + |p|, Escape, 1, []);
    hide *;
    Silent(s, 2 + |p|, Csi, n, Turn(3 + |p|, Escape, 1, []));
  }

  lemma OneEscape(b: Bytes)
    ensures Clean([ESC] + b, 0, Normal, 0) == Clean([ESC] + b, 1, Escape, 1) && ([ESC] + b)[1..] == b
    ensures var u := [ESC] + ([ESC] + b); Clean(u, 0, Normal, 0) == Clean(u, 2, Escape, 1) && u[2..] == b
  {
    var t, u := [ESC] + b, [ESC] + ([ESC] + b);
    assert t[0] == u[0] == u[1] == ESC;
    assert Advance(t, 0, Normal, 0) == Advance(u, 0, Normal, 0) == Turn(1, Escape, 1, []);
    assert Advance(u, 1, Escape, 1) == Turn(2, Escape, 1, []);
    hide *;
    Silent(t, 0, Normal, 0, Turn(1, Escape, 1, []));
    Silent(u, 0, Normal, 0, Turn(1, Escape, 1, []));
    Silent(u, 1, Escape, 1, Turn(2, Escape, 1, []));
  }

  /** Behind safe text only the state reached and what is left of the text matter. */
  lemma SameTails(a: Bytes, s: Bytes, k: nat, t: Bytes, j: nat, b: Bytes, state: State, n: nat)
    requires Safe(a) && k <= |s| && j <= |t| && s[k..] == b && t[j..] == b
    requires Clean(s, 0, Normal, 0) == Clean(s, k, state, n) && Clean(t, 0, Normal, 0) == Clean(t, j, state, n)
    ensures Sanitized(a + s) == Sanitized(a + t)
  {
    hide *;
    assert a[0..] == a && s == s[..k] + b && t == t[..j] + b;
    CleanShifted(s[..k], b, 0, state, n);
    CleanShifted(t[..j], b, 0, state, n);
    SafePrefix(a, 0, s, 0);
    SafePrefix(a, 0, t, 0);
    CleanShifted(a, s, 0, Normal, 0);
    CleanShifted(a, t, 0, Normal, 0);
    SanitizedIs(a + s);
    SanitizedIs(a + t);
  }

  /** Inside a control string ESC and a bracket open another sequence, whose length counts on. */
  lemma ReopenedVanishes(a: Bytes, o: Bytes, p: Bytes, c: Byte, q: Bytes, e: Bytes, b: Bytes,
                         state: State, next: State, n: nat)
    requires Safe(a) && Opens(o, state, n) && state != Csi && Inside(state, p) && n + |p| <= Longest(state)
    requires (c == '[' as int && next == Csi) || (c == ']' as int && next == Osc)
    requires Inside(next, q) && Closes(next, e) && n + |p| + 2 + |q| <= Longest(next)
    requires e == [0xC2, 0x9C] ==> n + |p| + 2 + |q| < Longest(next)
    ensures Sanitized(a + (o + (p + ([ESC, c] + (q + (e + b)))))) == a + Sanitized(b)
  {
    hide *;
    OpenedState(o, state, n);
    var rest := q + (e + b);
    var s := o + (p + ([ESC, c] + rest));
    var k, m := 4 + |p|, n + |p| + 2;
    FirstOf([ESC, c], rest);
    NoCut();
    OpenedAndScanned(o, p, [ESC, c] + rest, state, n);
    Slices(o, p, [ESC, c], rest);
    BracketTurns(s, 2 + |p|, c, state, next, n + |p|);
    assert s == s[..k] + rest;
    ClosesFirst(next, e);
    FirstOf(e, b);
    forall i | k <= i < k + |q| ensures SwallowedAt(s, i, next) { SwallowedBehind(s, k, q, e + b, next, i - k); }
    BodyScanned(s, k, |q|, next, m);
    assert s[k + |q|..k + |q| + |e|] == rest[|q|..|q| + |e|] == e && s[k + |q| + |e|..] == rest[|q| + |e|..] == b;
    Closed(s, k + |q|, e, next, m + |q|);
    DroppedTo(a, s, k + |q| + |e|, b, CountAfter(e, m + |q|));
  }

  lemma BracketTurns(s: Bytes, i: nat, c: Byte, state: State, next: State, n: nat)
    requires i + 2 <= |s| && s[i..i + 2] == [ESC, c] && state in {Osc, Text}
    requires (c == '[' as int && next == Csi) || (c == ']' as int && next == Osc)
    ensures Clean(s, i, state, n) == Clean(s, i + 2, next, n + 2) && next in {Csi, Osc, Text}
  {
    assert s[i] == s[i..i + 2][0] && s[i + 1] == s[i..i + 2][1];
    assert Advance(s, i, state, n) == Turn(i + 1, OscEscape, n + 1, []);
    assert Advance(s, i + 1, OscEscape, n + 1) == Turn(i + 2, next, n + 2, []);
    hide *;
    Silent(s, i, state, n, Turn(i + 1, OscEscape, n + 1, []));
    Silent(s, i + 1, OscEscape, n + 1, Turn(i + 2, next, n + 2, []));
  }

  lemma SwallowedBehind(s: Bytes, k: nat, q: Bytes, rest: Bytes, state: State, i: nat)
    requires k <= |s| && s[k..] == q + rest && Inside(state, q) && i < |q|
    requires rest != [] ==> rest[0] != 0x9C
    ensures k + i < |s| && SwallowedAt(s, k + i, state)
  {
    var t := s[k..];
    assert SwallowedAt(q, i, state) && t[i] == q[i] == s[k + i];
    if i + 1 < |t| { assert t[i + 1] == s[k + i + 1] == if i + 1 < |q| then q[i + 1] else rest[0]; }
  }
}
