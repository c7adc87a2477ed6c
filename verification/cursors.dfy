/**
  Client-side cursor bookkeeping of the Vue composable `useCursors`: the
  offset-to-(line, column) conversion, the per-user colour hash, and the
  cursor table with its upsert, remove, clear and filter-out-self operations.
  JavaScript strings are modelled as `seq<char>`, one element per UTF-16 code
  unit.
*/
module Cursors {

  datatype CursorPosition = CursorPosition(line: nat, column: nat)

  const Newline: char := '\n'

  /** `parts.join(sep)`. */
  function Join(parts: seq<string>, sep: char): (r: string)
    requires |parts| >= 1
    decreases |parts|
  {
    if |parts| == 1 then parts[0] else parts[0] + [sep] + Join(parts[1..], sep)
  }

  /**
    `s.split(sep)` for a one-character separator: the maximal separator-free
    pieces between separators, at least one (possibly empty) piece.
  */
  function Split(s: string, sep: char): (parts: seq<string>)
    ensures |parts| >= 1
    ensures forall i :: 0 <= i < |parts| ==> sep !in parts[i]
    ensures Join(parts, sep) == s
    decreases |s|
  {
    if s == [] then [[]]
    else
      var rest := Split(s[1..], sep);
      if s[0] == sep then
        assert Join([[]] + rest, sep) == [] + [sep] + Join(rest, sep);
        [[]] + rest
      else
        var parts := [[s[0]] + rest[0]] + rest[1..];
        assert |rest| > 1 ==> Join(parts, sep) == [s[0]] + rest[0] + [sep] + Join(rest[1..], sep) by {
          if |rest| > 1 {
            assert parts[1..] == rest[1..];
          }
        }
        parts
  }

  /** A separator-free piece followed by the separator splits off as one part. */
  lemma {:induction false} SplitAfterPiece(p: string, sep: char, rest: string)
    requires sep !in p
    ensures Split(p + [sep] + rest, sep) == [p] + Split(rest, sep)
    decreases |p|
  {
    if p == [] {
      assert p + [sep] + rest == [sep] + rest;
      assert ([sep] + rest)[1..] == rest;
    } else {
      var s := p + [sep] + rest;
      assert s[0] == p[0] && s[1..] == p[1..] + [sep] + rest;
      SplitAfterPiece(p[1..], sep, rest);
      assert [p[0]] + p[1..] == p;
    }
  }

  lemma {:induction false} SplitPiece(p: string, sep: char)
    requires sep !in p
    ensures Split(p, sep) == [p]
    decreases |p|
  {
    if p != [] {
      SplitPiece(p[1..], sep);
      assert [p[0]] + p[1..] == p;
    }
  }

  /** Splitting undoes joining separator-free parts. */
  lemma {:induction false} SplitJoin(parts: seq<string>, sep: char)
    requires |parts| >= 1
    requires forall i :: 0 <= i < |parts| ==> sep !in parts[i]
    ensures Split(Join(parts, sep), sep) == parts
    decreases |parts|
  {
    if |parts| == 1 {
      SplitPiece(parts[0], sep);
    } else {
      SplitJoin(parts[1..], sep);
      SplitAfterPiece(parts[0], sep, Join(parts[1..], sep));
      assert [parts[0]] + parts[1..] == parts;
    }
  }

  /** There is one more part than there are separators. */
  lemma {:induction false} SplitCount(s: string, sep: char)
    ensures |Split(s, sep)| == multiset(s)[sep] + 1
    decreases |s|
  {
    if s != [] {
      SplitCount(s[1..], sep);
      assert s == [s[0]] + s[1..];
      assert multiset(s) == multiset{s[0]} + multiset(s[1..]);
    }
  }

  /** How one leading character changes the number of parts and the last part. */
  lemma SplitConsLast(s: string, sep: char)
    requires s != []
    ensures var rest := Split(s[1..], sep);
      var parts := Split(s, sep);
      && |parts| == (if s[0] == sep then |rest| + 1 else |rest|)
      && parts[|parts| - 1] ==
        (if s[0] != sep && |rest| == 1 then [s[0]] + rest[0] else rest[|rest| - 1])
  {
  }

  /** The last part is the separator-free tail after the last separator. */
  lemma {:induction false} SplitLast(s: string, sep: char)
    ensures var parts := Split(s, sep);
      var last := parts[|parts| - 1];
      && |last| <= |s|
      && last == s[|s| - |last|..]
      && (|parts| == 1 ==> last == s)
      && (|parts| > 1 ==> |last| < |s| && s[|s| - |last| - 1] == sep)
    decreases |s|
  {
    if s != [] {
      var tail := s[1..];
      SplitLast(tail, sep);
      SplitConsLast(s, sep);
      var rest := Split(tail, sep);
      var last := rest[|rest| - 1];
      if s[0] != sep && |rest| == 1 {
        assert [s[0]] + tail == s;
      } else {
        assert tail[|tail| - |last|..] == s[|s| - |last|..];
        if |rest| > 1 {
          assert tail[|tail| - |last| - 1] == s[|s| - |last| - 1];
        }
      }
    }
  }


  /** `text.substring(0, position)`: the position is clamped into the text. */
  function Prefix(text: string, position: int): (p: string)
    ensures |p| <= |text| && p == text[..|p|]
    ensures 0 <= position <= |text| ==> |p| == position
    ensures position < 0 ==> p == []
    ensures position > |text| ==> p == text
  {
    if position < 0 then [] else if position > |text| then text else text[..position]
  }

  /**
    `calculateCursorPosition`: split the prefix before the position on
    newlines; the line is the number of parts before the last, the column the
    last part's length. With p that prefix, the line is the number of
    newlines in p, and the column is the length of the newline-free tail of p
    after its last newline (or all of p when it has none).
  */
  function CalculateCursorPosition(text: string, position: int): (pos: CursorPosition)
    ensures var p := Prefix(text, position);
      && pos.line == multiset(p)[Newline]
      && pos.column <= |p|
      && Newline !in p[|p| - pos.column..]
      && (pos.column < |p| ==> p[|p| - pos.column - 1] == Newline)
  {
    var p := Prefix(text, position);
    var lines := Split(p, Newline);
    SplitCount(p, Newline);
    SplitLast(p, Newline);
    CursorPosition(|lines| - 1, |lines[|lines| - 1]|)
  }

  lemma {:induction false} CountBoundedByLength(s: string, x: char)
    ensures multiset(s)[x] <= |s|
    decreases |s|
  {
    if s != [] {
      CountBoundedByLength(s[1..], x);
      assert s == [s[0]] + s[1..];
      assert multiset(s) == multiset{s[0]} + multiset(s[1..]);
    }
  }

  lemma {:induction false} CountOfConcat(a: string, b: string, x: char)
    requires x !in b
    ensures multiset(a + b)[x] == multiset(a)[x]
  {
    assert multiset(a + b) == multiset(a) + multiset(b);
  }

  /** Bounds: line + column never exceeds the length of the prefix. */
  lemma CursorPositionBounds(text: string, position: int)
    ensures var pos := CalculateCursorPosition(text, position);
      pos.line + pos.column <= |Prefix(text, position)|
  {
    var p := Prefix(text, position);
    var pos := CalculateCursorPosition(text, position);
    var head := p[..|p| - pos.column];
    var tail := p[|p| - pos.column..];
    assert p == head + tail;
    CountOfConcat(head, tail, Newline);
    CountBoundedByLength(head, Newline);
  }

  /** Text without newlines is all on line 0, and a negative position is (0, 0). */
  lemma CursorPositionEdges(text: string, position: int)
    ensures Newline !in text ==> CalculateCursorPosition(text, position).line == 0
    ensures position < 0 ==> CalculateCursorPosition(text, position) == CursorPosition(0, 0)
  {
    var p := Prefix(text, position);
    if Newline !in text {
      assert Newline !in p by {
        assert forall i :: 0 <= i < |p| ==> p[i] == text[i];
      }
      assert multiset(p)[Newline] == 0;
    }
  }

  // ---------------------------------------------------------------------------
  // generateUserColor

  const Int32Modulus: int := 0x1_0000_0000
  const Int32Limit: int := 0x8000_0000

  /** ECMAScript ToInt32 (section 7.1.6 of ECMA-262) on an integral value. */
  function ToInt32(x: int): (r: int)
    ensures -Int32Limit <= r < Int32Limit
    ensures Congruent(x, r)
  {
    (x + Int32Limit) % Int32Modulus - Int32Limit
  }

  /** One round of the loop: `hash = (hash << 5) - hash + char; hash = hash & hash`. */
  function HashStep(hash: int, code: int): (r: int)
  {
    ToInt32(ToInt32(hash * 32) - hash + code)
  }

  /** The loop of `generateUserColor` over the UTF-16 code units of the id. */
  function Hash(s: string): (h: int)
    ensures -Int32Limit <= h < Int32Limit
    decreases |s|
  {
    if s == [] then 0 else HashStep(Hash(s[..|s| - 1]), s[|s| - 1] as int)
  }

  /** The polynomial string hash sum of s[i] * 31^(|s|-1-i), without any wrap-around. */
  function Poly(s: string): (r: int)
    decreases |s|
  {
    if s == [] then 0 else 31 * Poly(s[..|s| - 1]) + s[|s| - 1] as int
  }

  /** a and b differ by a multiple of 2^32. */
  predicate Congruent(a: int, b: int)
  {
    (a - b) % Int32Modulus == 0
  }

  lemma CongruentByMultiple(a: int, b: int, k: int)
    requires a - b == Int32Modulus * k
    ensures Congruent(a, b) && Congruent(b, a)
  {
    assert b - a == Int32Modulus * -k;
  }

  lemma CongruentWitness(a: int, b: int) returns (k: int)
    requires Congruent(a, b)
    ensures a - b == Int32Modulus * k
  {
    k := (a - b) / Int32Modulus;
  }

  lemma ModOfMultiplePlus(x: int, q: int, rm: int)
    requires x == Int32Modulus * q + rm && 0 <= rm < Int32Modulus
    ensures x % Int32Modulus == rm
  {
    var d := x / Int32Modulus;
    assert x == Int32Modulus * d + x % Int32Modulus;
    assert Int32Modulus * (q - d) == x % Int32Modulus - rm;
    assert -Int32Modulus < x % Int32Modulus - rm < Int32Modulus;
    assert q == d;
  }

  lemma ToInt32Congruent(a: int, b: int)
    requires Congruent(a, b)
    ensures ToInt32(a) == ToInt32(b)
  {
    var k := CongruentWitness(a, b);
    var y := b + Int32Limit;
    var q := y / Int32Modulus;
    var rm := y % Int32Modulus;
    assert y == Int32Modulus * q + rm;
    assert a + Int32Limit == Int32Modulus * (q + k) + rm;
    ModOfMultiplePlus(a + Int32Limit, q + k, rm);
  }

  /** The step after the shift keeps the residue of 31 * hash + code. */
  lemma HashStepCongruent(h: int, p: int, code: int)
    requires Congruent(h, p)
    ensures HashStep(h, code) == ToInt32(31 * p + code)
  {
    var shifted := ToInt32(h * 32);
    var k1 := CongruentWitness(h * 32, shifted);
    var k2 := CongruentWitness(h, p);
    assert (shifted - h + code) - (31 * p + code) == Int32Modulus * (31 * k2 - k1);
    CongruentByMultiple(shifted - h + code, 31 * p + code, 31 * k2 - k1);
    ToInt32Congruent(shifted - h + code, 31 * p + code);
  }

  /**
    The shift-and-subtract loop with a 32-bit truncation after every
    character computes the polynomial hash truncated once at the end.
  */
  lemma {:induction false} HashIsPolynomial(s: string)
    ensures Hash(s) == ToInt32(Poly(s))
    decreases |s|
  {
    if s != [] {
      var init := s[..|s| - 1];
      var code := s[|s| - 1] as int;
      HashIsPolynomial(init);
      assert Hash(s) == HashStep(Hash(init), code);
      assert Poly(s) == 31 * Poly(init) + code;
      assert Congruent(Poly(init), Hash(init));
      var k := CongruentWitness(Poly(init), Hash(init));
      CongruentByMultiple(Poly(init), Hash(init), k);
      HashStepCongruent(Hash(init), Poly(init), code);
    }
  }

  datatype Hsl = Hsl(hue: int, saturation: int, lightness: int)

  function Abs(x: int): (r: nat)
  {
    if x < 0 then -x else x
  }

  /**
    `generateUserColor`, its numeric HSL components: the hue spreads over the
    colour wheel, saturation and lightness over 20 percentage points each.
  */
  function UserColor(userId: string): (c: Hsl)
    ensures 0 <= c.hue < 360
    ensures 70 <= c.saturation < 90
    ensures 45 <= c.lightness < 65
    ensures c.lightness == c.saturation - 25
    ensures c.hue == Abs(ToInt32(Poly(userId))) % 360
    ensures c.saturation == 70 + Abs(ToInt32(Poly(userId))) % 20
  {
    HashIsPolynomial(userId);
    var a := Abs(Hash(userId));
    Hsl(a % 360, 70 + a % 20, 45 + a % 20)
  }

  // ---------------------------------------------------------------------------
  // The cursor table

  datatype PeerCursor = PeerCursor(userId: string, position: int, color: Hsl)

  type CursorTable = map<string, PeerCursor>

  /** `updateCursor`: upsert the user's cursor with its generated colour. */
  function UpdateCursor(t: CursorTable, userId: string, position: int): (r: CursorTable)
    ensures userId in r && r[userId] == PeerCursor(userId, position, UserColor(userId))
    ensures forall k :: k != userId ==> (k in r <==> k in t)
    ensures forall k :: k != userId && k in t ==> r[k] == t[k]
  {
    t[userId := PeerCursor(userId, position, UserColor(userId))]
  }

  /** `removeCursor`: delete the user's entry; nothing happens if there is none. */
  function RemoveCursor(t: CursorTable, userId: string): (r: CursorTable)
    ensures userId !in r
    ensures forall k :: k != userId ==> (k in r <==> k in t)
    ensures forall k :: k in r ==> r[k] == t[k]
    ensures userId !in t ==> r == t
  {
    t - {userId}
  }

  /** `clearCursors`. */
  function ClearCursors(t: CursorTable): (r: CursorTable)
    ensures forall k :: k !in r
  {
    map[]
  }

  /** `otherCursors`: every entry but the local user's own. */
  function OtherCursors(t: CursorTable, myUserId: string): (r: CursorTable)
    ensures forall k :: k in r <==> k in t && k != myUserId
    ensures forall k :: k in r ==> r[k] == t[k]
  {
    map k | k in t && k != myUserId :: t[k]
  }

  /** Repeating an upsert changes nothing. */
  lemma UpdateCursorIdempotent(t: CursorTable, userId: string, position: int)
    ensures UpdateCursor(UpdateCursor(t, userId, position), userId, position) == UpdateCursor(t, userId, position)
  {
  }

  /** Removing right after an upsert is the same as removing. */
  lemma RemoveUndoesUpdate(t: CursorTable, userId: string, position: int)
    ensures RemoveCursor(UpdateCursor(t, userId, position), userId) == RemoveCursor(t, userId)
  {
  }

  /** The local user's own cursor never shows among the others. */
  lemma OwnCursorHidden(t: CursorTable, myUserId: string, position: int)
    ensures OtherCursors(UpdateCursor(t, myUserId, position), myUserId) == OtherCursors(t, myUserId)
  {
  }
}
