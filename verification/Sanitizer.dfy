/**
 The text sanitizer (adapter/bubbletea/sanitize.go): a six-state automaton over bytes that decodes
 UTF-8 (section 4 of RFC 3629) and drops control sequences (section 5.4 of ECMA-48).
 */
module Sanitizer {
  import opened Sequences

  type Byte = x: int | 0 <= x < 256
  type Bytes = seq<Byte>

  const TAB: Byte := 0x09
  const LF: Byte := 0x0A
  const CR: Byte := 0x0D
  const ESC: Byte := 0x1B
  const DEL: Byte := 0x7F
  const BEL: Byte := 0x07

  // ---- UTF-8 ----

  datatype Decoded = Invalid | Rune(code: nat, size: nat)

  predicate Tail(b: Byte) { 0x80 <= b <= 0xBF }

  /** The six bits a continuation byte carries. */
  function Low(b: Byte): nat
    requires Tail(b)
  {
    b as int - 0x80
  }

  /** The first code point; Invalid stands for a replacement rune of one byte. */
  function Decode(s: Bytes): (d: Decoded)
    requires s != []
    ensures d.Rune? ==> 1 <= d.size <= 4 && d.size <= |s|
  {
    var b: int := s[0];
    if b < 0x80 then Rune(b, 1)
    else if 0xC2 <= b <= 0xDF && |s| >= 2 && Tail(s[1]) then Rune((b - 0xC0) * 64 + Low(s[1]), 2)
    else if 0xE0 <= b <= 0xEF && |s| >= 3 && SecondOk(b, s[1]) && Tail(s[2]) then
      Rune((b - 0xE0) * 4096 + Low(s[1]) * 64 + Low(s[2]), 3)
    else if 0xF0 <= b <= 0xF4 && |s| >= 4 && SecondOk(b, s[1]) && Tail(s[2]) && Tail(s[3]) then
      Rune((b - 0xF0) * 262144 + Low(s[1]) * 4096 + Low(s[2]) * 64 + Low(s[3]), 4)
    else Invalid
  }

  /** No overlong forms, no surrogates, nothing above U+10FFFF. */
  predicate SecondOk(first: Byte, b: Byte) {
    && Tail(b)
    && (first == 0xE0 ==> b >= 0xA0)
    && (first == 0xED ==> b <= 0x9F)
    && (first == 0xF0 ==> b >= 0x90)
    && (first == 0xF4 ==> b <= 0x8F)
  }

  // ---- what may reach the terminal ----

  predicate C1(code: nat) { 0x80 <= code <= 0x9F }
  predicate Bidi(code: nat) { 0x202A <= code <= 0x202E || 0x2066 <= code <= 0x2069 }

  predicate Harmless(code: nat) {
    code == TAB || code == LF || (code >= 0x20 && code != DEL && !C1(code) && !Bidi(code))
  }

  /** Valid UTF-8 whose code points are all harmless. */
  predicate Safe(s: Bytes) {
    s == [] || var d := Decode(s); d.Rune? && Harmless(d.code) && Safe(s[d.size..])
  }

  // ---- the automaton ----

  datatype State = Normal | Escape | Csi | Osc | OscEscape | Text

  /** One turn of the loop: where it goes on, in which state, and what it writes. */
  datatype Turn = Turn(next: nat, state: State, seqLen: nat, piece: Bytes)

  function NormalTurn(s: Bytes, i: nat, seqLen: nat): Turn
    requires i < |s|
  {
    var b := s[i];
    if b == CR then
      if i + 1 < |s| && s[i + 1] == LF then Turn(i + 1, Normal, seqLen, []) else Turn(i + 1, Normal, seqLen, [LF])
    else if b == LF || b == TAB then Turn(i + 1, Normal, seqLen, [b])
    else if b == ESC then Turn(i + 1, Escape, 1, [])
    else if b < 0x20 || b == DEL then Turn(i + 1, Normal, seqLen, [])
    else match Decode(s[i..])
      case Invalid => Turn(i + 1, Normal, seqLen, [])
      case Rune(code, size) =>
        if code == 0x9B then Turn(i + size, Csi, 1, [])
        else if code == 0x9D then Turn(i + size, Osc, 1, [])
        else if code == 0x90 || code == 0x98 || code == 0x9E || code == 0x9F then Turn(i + size, Text, 1, [])
        else if C1(code) || Bidi(code) then Turn(i + size, Normal, seqLen, [])
        else Turn(i + size, Normal, seqLen, s[i..i + size])
  }

  function EscapeTurn(s: Bytes, i: nat, seqLen: nat): Turn
    requires i < |s|
  {
    var b, len := s[i], seqLen + 1;
    if b == '[' as int then Turn(i + 1, Csi, len, [])
    else if b == ']' as int then Turn(i + 1, Osc, len, [])
    else if b == 'P' as int || b == '_' as int || b == '^' as int || b == 'X' as int then Turn(i + 1, Text, len, [])
    else if b == ESC then Turn(i + 1, Escape, 1, [])
    else Turn(i + 1, Normal, len, [])
  }

  function CsiTurn(s: Bytes, i: nat, seqLen: nat): Turn
    requires i < |s|
  {
    var b, len := s[i], seqLen + 1;
    if 0x40 <= b <= 0x7E then Turn(i + 1, Normal, len, [])
    else if b == ESC then Turn(i + 1, Escape, 1, [])
    else if b == LF then Turn(i + 1, Normal, len, [LF])
    else if len > 128 then Turn(i + 1, Normal, len, [])
    else Turn(i + 1, Csi, len, [])
  }

  /** Operating system commands and the other control strings. */
  function StringTurn(s: Bytes, i: nat, state: State, seqLen: nat): Turn
    requires i < |s|
  {
    var b, len := s[i], seqLen + 1;
    if b == BEL then Turn(i + 1, Normal, len, [])
    else if b == ESC then Turn(i + 1, OscEscape, len, [])
    else if b == LF then Turn(i + 1, Normal, len, [LF])
    else if len > 2048 then Turn(i + 1, Normal, len, [])
    else if Decode(s[i..]).Rune? && Decode(s[i..]).code == 0x9C then Turn(i + Decode(s[i..]).size, Normal, len, [])
    else Turn(i + 1, state, len, [])
  }

  function OscEscapeTurn(s: Bytes, i: nat, seqLen: nat): Turn
    requires i < |s|
  {
    var b, len := s[i], seqLen + 1;
    if b == '[' as int then Turn(i + 1, Csi, len, [])
    else if b == ']' as int then Turn(i + 1, Osc, len, [])
    else if b == ESC then Turn(i + 1, OscEscape, len, [])
    else Turn(i + 1, Normal, len, [])
  }

  /** Every turn moves on, and writes nothing, a newline, or one harmless code point as it stands. */
  function Advance(s: Bytes, i: nat, state: State, seqLen: nat): (t: Turn)
    requires i < |s|
    ensures i < t.next <= |s|
  {
    match state
    case Normal => NormalTurn(s, i, seqLen)
    case Escape => EscapeTurn(s, i, seqLen)
    case Csi => CsiTurn(s, i, seqLen)
    case Osc => StringTurn(s, i, state, seqLen)
    case Text => StringTurn(s, i, state, seqLen)
    case OscEscape => OscEscapeTurn(s, i, seqLen)
  }

  function Clean(s: Bytes, i: nat, state: State, seqLen: nat): Bytes
    requires i <= |s|
    decreases |s| - i
  {
    if i == |s| then []
    else
      var t := Advance(s, i, state, seqLen);
      t.piece + Clean(s, t.next, t.state, t.seqLen)
  }

  /** What SanitizeText returns. */
  function Sanitized(s: Bytes): Bytes { Clean(s, 0, Normal, 0) }

  method SanitizeText(s: Bytes) returns (out: Bytes)
    ensures out == Sanitized(s)
  {
    if s == [] { return []; }
    out := [];
    var state, seqLen, i := Normal, 0, 0;
    assert Written(s, out, i, state, seqLen);
    while i < |s|
      invariant 0 <= i <= |s|
      invariant Written(s, out, i, state, seqLen)
    {
      hide Written;
      hide Decode;
      WrittenNext(s, out, i, state, seqLen);
      var b := s[i];
      match state {
        case Normal =>
          if b == CR {
            if i + 1 < |s| && s[i + 1] == LF {
              i := i + 1;
              continue;
            }
            out := out + [LF];
            i := i + 1;
            continue;
          }
          if b == LF || b == TAB {
            out := out + [b];
            i := i + 1;
            continue;
          }
          if b == ESC {
            state, seqLen := Escape, 1;
            i := i + 1;
            continue;
          }
          if b < 0x20 || b == DEL {
            i := i + 1;
            continue;
          }
          var d := Decode(s[i..]);
          if d.Invalid? {
            i := i + 1;
            continue;
          }
          if C1(d.code) {
            if d.code == 0x9B { state, seqLen := Csi, 1; }
            else if d.code == 0x9D { state, seqLen := Osc, 1; }
            else if d.code == 0x90 || d.code == 0x98 || d.code == 0x9E || d.code == 0x9F { state, seqLen := Text, 1; }
            i := i + d.size;
            continue;
          }
          if Bidi(d.code) {
            i := i + d.size;
            continue;
          }
          out := out + s[i..i + d.size];
          i := i + d.size;
        case Escape =>
          seqLen := seqLen + 1;
          if b == '[' as int { state := Csi; }
          else if b == ']' as int { state := Osc; }
          else if b == 'P' as int || b == '_' as int || b == '^' as int || b == 'X' as int { state := Text; }
          else if b == ESC { seqLen := 1; }
          else { state := Normal; }
          i := i + 1;
        case Csi =>
          seqLen := seqLen + 1;
          if 0x40 <= b <= 0x7E {
            state := Normal;
          } else if b == ESC {
            state, seqLen := Escape, 1;
          } else if b == LF || seqLen > 128 {
            state := Normal;
            if b == LF { out := out + [LF]; }
          }
          i := i + 1;
        case OscEscape =>
          seqLen := seqLen + 1;
          if b == '[' as int { state := Csi; }
          else if b == ']' as int { state := Osc; }
          else if b != ESC { state := Normal; }
          i := i + 1;
        case _ =>
          seqLen := seqLen + 1;
          if b == BEL {
            state := Normal;
          } else if b == ESC {
            state := OscEscape;
          } else if b == LF || seqLen > 2048 {
            state := Normal;
            if b == LF { out := out + [LF]; }
          } else {
            var d := Decode(s[i..]);
            if d.Rune? && d.code == 0x9C {
              state := Normal;
              i := i + d.size;
              continue;
            }
          }
          i := i + 1;
      }
    }
  }

  /** `out` is what the bytes before `i` left behind. */
  predicate Written(s: Bytes, out: Bytes, i: nat, state: State, seqLen: nat) {
    i <= |s| && out + Clean(s, i, state, seqLen) == Sanitized(s)
  }

  lemma WrittenNext(s: Bytes, out: Bytes, i: nat, state: State, seqLen: nat)
    requires i < |s| && Written(s, out, i, state, seqLen)
    ensures var t := Advance(s, i, state, seqLen);
      && Written(s, out + t.piece, t.next, t.state, t.seqLen)
      && (t.piece == [] ==> Written(s, out, t.next, t.state, t.seqLen))
  {
    hide *;
    WrittenIs(s, out, i, state, seqLen);
    CleanIs(s, i, state, seqLen);
    var t := Advance(s, i, state, seqLen);
    ConcatAssoc(out, t.piece, Clean(s, t.next, t.state, t.seqLen));
    ConcatNil(out);
    WrittenIs(s, out + t.piece, t.next, t.state, t.seqLen);
    WrittenIs(s, out, t.next, t.state, t.seqLen);
  }

  lemma WrittenIs(s: Bytes, out: Bytes, i: nat, state: State, seqLen: nat)
    ensures Written(s, out, i, state, seqLen) <==> i <= |s| && out + Clean(s, i, state, seqLen) == Sanitized(s)
  {
    hide Clean;
  }

  lemma CleanIs(s: Bytes, i: nat, state: State, seqLen: nat)
    requires i < |s|
    ensures var t := Advance(s, i, state, seqLen);
      Clean(s, i, state, seqLen) == t.piece + Clean(s, t.next, t.state, t.seqLen)
  {
    hide Advance;
  }

  // ---- the output is safe ----

  /** A code point that stands alone decodes to itself in front of anything. */
  lemma DecodeFront(p: Bytes, rest: Bytes)
    requires p != [] && Decode(p).Rune? && Decode(p).size == |p|
    ensures Decode(p + rest) == Decode(p)
  {
  }

  lemma DecodeSlice(s: Bytes)
    requires s != [] && Decode(s).Rune?
    ensures var p := s[..Decode(s).size]; p != [] && Decode(p) == Decode(s)
  {
  }

  lemma SafeFront(p: Bytes, rest: Bytes)
    requires p != [] && Decode(p).Rune? && Decode(p).size == |p| && Harmless(Decode(p).code) && Safe(rest)
    ensures Safe(p + rest)
  {
    DecodeFront(p, rest);
    assert (p + rest)[|p|..] == rest;
  }

  /** A piece is empty or one harmless code point. */
  lemma PieceSafe(s: Bytes, i: nat, state: State, seqLen: nat)
    requires i < |s|
    ensures var p := Advance(s, i, state, seqLen).piece;
      p == [] || (Decode(p).Rune? && Decode(p).size == |p| && Harmless(Decode(p).code))
  {
    if state == Normal && Decode(s[i..]).Rune? {
      DecodeSlice(s[i..]);
      assert s[i..][..Decode(s[i..]).size] == s[i..i + Decode(s[i..]).size];
    }
  }

  lemma {:induction false} CleanSafe(s: Bytes, i: nat, state: State, seqLen: nat)
    requires i <= |s|
    ensures Safe(Clean(s, i, state, seqLen))
    decreases |s| - i
  {
    if i < |s| {
      var t := Advance(s, i, state, seqLen);
      PieceSafe(s, i, state, seqLen);
      CleanSafe(s, t.next, t.state, t.seqLen);
      var rest := Clean(s, t.next, t.state, t.seqLen);
      if t.piece == [] {
        assert t.piece + rest == rest;
      } else {
        SafeFront(t.piece, rest);
      }
    }
  }

  // ---- safe text is left alone ----

  lemma {:induction false} SafeKept(s: Bytes, i: nat, seqLen: nat)
    requires i <= |s| && Safe(s[i..])
    ensures Clean(s, i, Normal, seqLen) == s[i..]
    decreases |s| - i
  {
    if i < |s| {
      hide *;
      SafeSplit(s, i);
      var size := Decode(s[i..]).size;
      SafeTurn(s, i, seqLen);
      CleanIs(s, i, Normal, seqLen);
      SafeKept(s, i + size, seqLen);
      Split(s, i, i + size);
    }
  }

  lemma Split(s: Bytes, i: nat, j: nat)
    requires i <= j <= |s|
    ensures s[i..] == s[i..j] + s[j..]
  {
  }

  lemma SafeSplit(s: Bytes, i: nat)
    requires i < |s| && Safe(s[i..])
    ensures var d := Decode(s[i..]); d.Rune? && Harmless(d.code) && Safe(s[i + d.size..])
  {
    hide Decode;
    hide Harmless;
    assert s[i..][Decode(s[i..]).size..] == s[i + Decode(s[i..]).size..];
  }

  lemma SafeTurn(s: Bytes, i: nat, seqLen: nat)
    requires i < |s| && Decode(s[i..]).Rune? && Harmless(Decode(s[i..]).code)
    ensures var d := Decode(s[i..]);
      Advance(s, i, Normal, seqLen) == Turn(i + d.size, Normal, seqLen, s[i..i + d.size])
  {
    HarmlessFirst(s, i);
    hide Decode;
  }

  /** The first byte of a harmless code point is no control byte. */
  lemma HarmlessFirst(s: Bytes, i: nat)
    requires i < |s| && Decode(s[i..]).Rune? && Harmless(Decode(s[i..]).code)
    ensures s[i] != CR && s[i] != ESC && s[i] != DEL && (s[i] < 0x20 ==> s[i] == LF || s[i] == TAB)
    ensures s[i] < 0x80 ==> Decode(s[i..]).size == 1 && s[i..i + 1] == [s[i]]
  {
  }

  /**
   For every byte string the output is valid UTF-8 without C0 controls (but LF and TAB), DEL, C1
   controls and bidirectional overrides; and text that is so already is returned as it is. So the
   fixed points are exactly the safe texts, and sanitizing twice is sanitizing once.
   */
  lemma SanitizedIsSafe(s: Bytes)
    ensures Safe(Sanitized(s))
    ensures Sanitized(s) == s <==> Safe(s)
    ensures Sanitized(Sanitized(s)) == Sanitized(s)
  {
    CleanSafe(s, 0, Normal, 0);
    var out := Sanitized(s);
    assert out[0..] == out && s[0..] == s;
    SafeKept(out, 0, 0);
    if Safe(s) { SafeKept(s, 0, 0); }
  }

  // ---- nothing is made up ----

  predicate Within(a: Bytes, b: Bytes) {
    a == [] || (b != [] && ((a[0] == b[0] && Within(a[1..], b[1..])) || Within(a, b[1..])))
  }

  /** The text with lone carriage returns read as newlines. */
  function Newlines(s: Bytes): (r: Bytes)
    ensures |r| == |s|
  {
    seq(|s|, i requires 0 <= i < |s| => if s[i] == CR && !(i + 1 < |s| && s[i + 1] == LF) then LF else s[i])
  }

  lemma {:induction false} WithinSkip(a: Bytes, skipped: Bytes, b: Bytes)
    requires Within(a, b)
    ensures Within(a, skipped + b)
    decreases |skipped|
  {
    if skipped == [] {
      assert skipped + b == b;
    } else {
      WithinSkip(a, skipped[1..], b);
      assert (skipped + b)[1..] == skipped[1..] + b;
    }
  }

  lemma {:induction false} WithinKeep(kept: Bytes, a: Bytes, b: Bytes)
    requires Within(a, b)
    ensures Within(kept + a, kept + b)
    decreases |kept|
  {
    if kept == [] {
      assert kept + a == a && kept + b == b;
    } else {
      WithinKeep(kept[1..], a, b);
      assert (kept + a)[1..] == kept[1..] + a && (kept + b)[1..] == kept[1..] + b;
    }
  }

  /** A piece is empty, or what stands there with a lone carriage return read as newline. */
  lemma PieceWithin(s: Bytes, i: nat, state: State, seqLen: nat)
    requires i < |s|
    ensures var t := Advance(s, i, state, seqLen);
      t.piece == [] || t.piece == Newlines(s)[i..t.next]
  {
    var t := Advance(s, i, state, seqLen);
    if state == Normal && s[i] >= 0x20 && Decode(s[i..]).Rune? { NoReturnInside(s, i); }
  }

  /** A code point that is no carriage return contains none. */
  lemma NoReturnInside(s: Bytes, i: nat)
    requires i < |s| && s[i] >= 0x20 && Decode(s[i..]).Rune?
    ensures forall j :: i <= j < i + Decode(s[i..]).size ==> s[j] != CR
  {
    var d := Decode(s[i..]);
    forall j | i <= j < i + d.size ensures s[j] != CR { assert s[j] == s[i..][j - i]; }
  }

  lemma {:induction false} CleanWithin(s: Bytes, i: nat, state: State, seqLen: nat)
    requires i <= |s|
    ensures Within(Clean(s, i, state, seqLen), Newlines(s)[i..])
    decreases |s| - i
  {
    if i < |s| {
      var t, lines := Advance(s, i, state, seqLen), Newlines(s);
      PieceWithin(s, i, state, seqLen);
      CleanWithin(s, t.next, t.state, t.seqLen);
      var rest := Clean(s, t.next, t.state, t.seqLen);
      Split(lines, i, t.next);
      if t.piece == [] {
        assert t.piece + rest == rest;
        WithinSkip(rest, lines[i..t.next], lines[t.next..]);
      } else {
        WithinKeep(t.piece, rest, lines[t.next..]);
      }
    }
  }

  /** The output is a subsequence of the input, lone carriage returns read as newlines. */
  lemma SanitizedWithin(s: Bytes)
    ensures Within(Sanitized(s), Newlines(s))
  {
    CleanWithin(s, 0, Normal, 0);
    assert Newlines(s)[0..] == Newlines(s);
  }

  // ---- control sequences disappear, the text around them stays ----

  /** What lies before the current byte is irrelevant. */
  lemma TurnShifted(x: Bytes, s: Bytes, i: nat, state: State, seqLen: nat)
    requires i < |s|
    ensures var t := Advance(s, i, state, seqLen);
      Advance(x + s, |x| + i, state, seqLen) == t.(next := |x| + t.next)
  {
    var all := x + s;
    assert all[|x| + i..] == s[i..];
    assert all[|x| + i] == s[i];
    assert i + 1 < |s| ==> all[|x| + i + 1] == s[i + 1];
    var d := Decode(s[i..]);
    if d.Rune? { assert all[|x| + i..|x| + i + d.size] == s[i..i + d.size]; }
    hide Decode;
  }

  lemma CleanEnd(s: Bytes, state: State, seqLen: nat)
    ensures Clean(s, |s|, state, seqLen) == []
  {
  }

  lemma {:induction false} CleanShifted(x: Bytes, s: Bytes, i: nat, state: State, seqLen: nat)
    requires i <= |s|
    ensures Clean(x + s, |x| + i, state, seqLen) == Clean(s, i, state, seqLen)
    decreases |s| - i
  {
    hide *;
    if i == |s| {
      CleanEnd(s, state, seqLen);
      CleanEnd(x + s, state, seqLen);
    } else {
      TurnShifted(x, s, i, state, seqLen);
      CleanIs(s, i, state, seqLen);
      CleanIs(x + s, |x| + i, state, seqLen);
      var t := Advance(s, i, state, seqLen);
      CleanShifted(x, s, t.next, t.state, t.seqLen);
    }
  }

  /** The length counter plays no part in the normal state. */
  lemma {:induction false} NormalForgets(s: Bytes, i: nat, m: nat, n: nat)
    requires i <= |s|
    ensures Clean(s, i, Normal, m) == Clean(s, i, Normal, n)
    decreases |s| - i
  {
    if i < |s| {
      var t, u := Advance(s, i, Normal, m), Advance(s, i, Normal, n);
      CountIrrelevant(s, i, m, n);
      hide Advance;
      if t.state == Normal { NormalForgets(s, t.next, t.seqLen, u.seqLen); }
    }
  }

  lemma CountIrrelevant(s: Bytes, i: nat, m: nat, n: nat)
    requires i < |s|
    ensures var t, u := Advance(s, i, Normal, m), Advance(s, i, Normal, n);
      && u == t.(seqLen := u.seqLen) && (t.state != Normal ==> u == t)
  {
    hide Decode;
  }

  lemma {:induction false} SafePrefix(a: Bytes, i: nat, rest: Bytes, seqLen: nat)
    requires i <= |a| && Safe(a[i..])
    ensures Clean(a + rest, i, Normal, seqLen) == a[i..] + Clean(a + rest, |a|, Normal, seqLen)
    decreases |a| - i
  {
    var all := a + rest;
    if i < |a| {
      SafeStep(a, i, rest, seqLen);
      hide *;
      var size := Decode(a[i..]).size;
      SafePrefix(a, i + size, rest, seqLen);
      ConcatAssoc(a[i..i + size], a[i + size..], Clean(all, |a|, Normal, seqLen));
      Split(a, i, i + size);
    } else {
      ConcatNil(Clean(all, |a|, Normal, seqLen));
    }
  }

  lemma SafeStep(a: Bytes, i: nat, rest: Bytes, seqLen: nat)
    requires i < |a| && Safe(a[i..])
    ensures Decode(a[i..]).Rune?
    ensures var size := Decode(a[i..]).size;
      && Safe(a[i + size..])
      && Clean(a + rest, i, Normal, seqLen) == a[i..i + size] + Clean(a + rest, i + size, Normal, seqLen)
  {
    hide Decode;
    hide Harmless;
    var all, size := a + rest, Decode(a[i..]).size;
    PrefixDecodes(a, i, rest);
    SafeTurn(all, i, seqLen);
    CleanIs(all, i, Normal, seqLen);
    hide Advance;
    hide Clean;
    assert all[i..i + size] == a[i..i + size] && a[i..][size..] == a[i + size..];
  }

  lemma PrefixDecodes(a: Bytes, i: nat, rest: Bytes)
    requires i < |a| && Decode(a[i..]).Rune?
    ensures Decode((a + rest)[i..]) == Decode(a[i..])
  {
    hide Decode;
    var p, d := a[i..], Decode(a[i..]);
    DecodeSlice(p);
    DecodeFront(p[..d.size], p[d.size..] + rest);
    hide *;
    Split(p, 0, d.size);
    assert p[0..] == p && p[0..d.size] == p[..d.size];
    ConcatAssoc(p[..d.size], p[d.size..], rest);
    assert (a + rest)[i..] == p + rest;
  }

  /** A turn that writes nothing. */
  lemma Silent(s: Bytes, i: nat, state: State, seqLen: nat, t: Turn)
    requires i < |s| && t == Advance(s, i, state, seqLen) && t.piece == []
    ensures Clean(s, i, state, seqLen) == Clean(s, t.next, t.state, t.seqLen)
  {
    CleanIs(s, i, state, seqLen);
    hide *;
    assert [] + Clean(s, t.next, t.state, t.seqLen) == Clean(s, t.next, t.state, t.seqLen);
  }

  lemma SanitizedIs(s: Bytes)
    ensures Sanitized(s) == Clean(s, 0, Normal, 0)
  {
    hide Clean;
  }
}
