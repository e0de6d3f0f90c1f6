/** Room codes (server/socket.ts, `generateRoomCode` and `createRoomCode`).
    A code is six characters drawn from an alphabet without the
    look-alikes I, O, 0 and 1. Each character costs one `Math.random()`
    draw, passed in here as a real in [0, 1). */
module RoomCodes {
  import opened Common

  const Alphabet: string := "ABCDEFGHJKLMNPQRSTUVWXYZ23456789"
  const CodeLength: nat := 6

  predicate IsRoomCode(s: string) {
    |s| == CodeLength && forall i :: 0 <= i < |s| ==> s[i] in Alphabet
  }

  /** The draws of one `generateRoomCode()` call: one per character. */
  predicate IsCodeDraw(d: seq<real>) {
    |d| == CodeLength && forall i :: 0 <= i < |d| ==> IsUnitDraw(d[i])
  }

  /** The code a given set of draws produces: character i is
      `chars.charAt(Math.floor(d[i] * chars.length))`. */
  function CodeFor(d: seq<real>): (code: string)
    requires IsCodeDraw(d)
    ensures IsRoomCode(code)
  {
    var code := seq(CodeLength, i requires 0 <= i < CodeLength => CodeChar(d[i]));
    assert forall i :: 0 <= i < CodeLength ==> code[i] == Alphabet[ScaledIndex(d[i], |Alphabet|)];
    code
  }

  /** `chars.charAt(Math.floor(u * chars.length))` for one draw `u`. */
  function CodeChar(u: real): char
    requires IsUnitDraw(u)
  {
    Alphabet[ScaledIndex(u, |Alphabet|)]
  }

  /** The alphabet has 32 symbols and leaves out I, O, 0 and 1. */
  lemma AlphabetShape()
    ensures |Alphabet| == 32
    ensures forall c :: c in Alphabet ==> UnambiguousChar(c)
  {
    forall i | 0 <= i < |Alphabet|
      ensures UnambiguousChar(Alphabet[i])
    {
    }
  }

  /** An upper-case letter other than I and O, or a digit other than 0 and 1. */
  predicate UnambiguousChar(c: char) {
    ('A' <= c <= 'Z' && c != 'I' && c != 'O') || ('2' <= c <= '9')
  }

  /** Room codes hold no lower-case letters, so upper-casing a code
      typed in any case gives the code back. */
  lemma UpperOfCode(code: string, typed: string)
    requires IsRoomCode(code)
    requires ToUpper(typed) == ToUpper(code)
    ensures ToUpper(typed) == code
  {
    forall i | 0 <= i < |code|
      ensures ToUpper(code)[i] == code[i]
    {
      assert !('a' <= code[i] <= 'z');
    }
  }

  /** `generateRoomCode()`: appends six drawn characters. */
  method GenerateRoomCode(d: seq<real>) returns (code: string)
    requires IsCodeDraw(d)
    ensures code == CodeFor(d)
    ensures IsRoomCode(code)
  {
    code := "";
    for i := 0 to CodeLength
      invariant |code| == i
      invariant forall j :: 0 <= j < i ==> code[j] == CodeChar(d[j])
    {
      code := code + [CodeChar(d[i])];
    }
    assert forall j :: 0 <= j < CodeLength ==> CodeFor(d)[j] == CodeChar(d[j]);
  }

  /** Index of the first block of draws whose code is free. */
  ghost predicate FirstFree(taken: set<string>, draws: seq<seq<real>>, k: nat)
    requires forall j :: 0 <= j < |draws| ==> IsCodeDraw(draws[j])
  {
    && k < |draws|
    && CodeFor(draws[k]) !in taken
    && forall j :: 0 <= j < k ==> CodeFor(draws[j]) in taken
  }

  /** `createRoomCode()`: draws codes until one is not a key of `rooms`.
      `draws[k]` is the k-th `generateRoomCode()` call's draws; the source
      loops until a free code comes up, so the stream must contain one. */
  method CreateRoomCode(taken: set<string>, draws: seq<seq<real>>) returns (code: string)
    requires forall j :: 0 <= j < |draws| ==> IsCodeDraw(draws[j])
    requires exists k :: 0 <= k < |draws| && CodeFor(draws[k]) !in taken
    ensures IsRoomCode(code) && code !in taken
    ensures exists k: nat :: FirstFree(taken, draws, k) && code == CodeFor(draws[k])
  {
    var i := 0;
    code := GenerateRoomCode(draws[0]);
    while code in taken
      invariant 0 <= i < |draws|
      invariant code == CodeFor(draws[i])
      invariant forall j :: 0 <= j < i ==> CodeFor(draws[j]) in taken
      decreases |draws| - i
    {
      i := i + 1;
      code := GenerateRoomCode(draws[i]);
    }
    assert FirstFree(taken, draws, i);
  }
}
