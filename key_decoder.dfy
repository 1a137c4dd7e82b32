/**
 * Turning terminal input into key codes (InputHandler::read_key,
 * src/input.cpp). The terminal is a sequence of one-byte read() results:
 * a byte, no byte yet (the 0.1 s raw-mode timeout expired, or the read
 * failed with EAGAIN), or a failure with any other error. Running off the
 * end of the sequence reads as "no byte yet".
 */
module KeyDecoder {
  import opened Slowertext

  type Byte = b: int | 0 <= b < 256

  /** The outcome of one read(STDIN_FILENO, &c, 1). */
  datatype Read = Got(b: Byte) | Idle | Failed

  /** The key read_key returns and the number of read() calls it made (the input it used up). */
  datatype Decoded = Decoded(key: int, used: nat)

  /** The i-th read, where reads past the end of the input time out. */
  function ReadAt(input: seq<Read>, i: nat): Read {
    if i < |input| then input[i] else Idle
  }

  /** How many reads the first loop of read_key spends waiting: the run of
      reads that delivered nothing without an error. */
  function Waited(input: seq<Read>): (n: nat)
    ensures n <= |input|
    ensures forall i :: 0 <= i < n ==> input[i].Idle?
    ensures n < |input| ==> !input[n].Idle?
  {
    if input != [] && input[0].Idle? then 1 + Waited(input[1..]) else 0
  }

  /** The waiting ends within the input: some read delivers a byte or fails.
      On input that only ever times out, read_key never returns. */
  predicate Arrives(input: seq<Read>) {
    Waited(input) < |input|
  }

  /** read_key: wait through reads that deliver nothing; a failed read is
      reported as -1; otherwise decode the key that starts with the byte
      read. */
  function ReadKey(input: seq<Read>): (r: Decoded)
    requires Arrives(input)
    ensures r.key == -1 <==> input[Waited(input)].Failed?
    ensures r.key != -1 ==> IsKeyCode(r.key)
    ensures Waited(input) + 1 <= r.used <= Waited(input) + 4
  {
    var w := Waited(input);
    var d := KeyAfterWait(input[w..]);
    Decoded(d.key, w + d.used)
  }

  /** read_key once the first loop has ended on input[0]. An Escape byte is
      followed by up to three more reads; a read that brings no byte, or any
      short or unrecognised sequence, gives Escape. */
  function KeyAfterWait(input: seq<Read>): (r: Decoded)
    requires input != [] && !input[0].Idle?
    ensures r.key == -1 <==> input[0].Failed?
    ensures r.key != -1 ==> IsKeyCode(r.key)
    ensures 1 <= r.used <= 4
  {
    if input[0].Failed? then Decoded(-1, 1)
    else
      var c := input[0].b;
      if c != EscKey then Decoded(c, 1)
      else
        var r0 := ReadAt(input, 1);
        var r1 := ReadAt(input, 2);
        if !r0.Got? then Decoded(EscKey, 2)
        else if !r1.Got? then Decoded(EscKey, 3)
        else if r0.b != '[' as int then Decoded(EscKey, 3)
        else if '0' as int <= r1.b <= '9' as int then
          var r2 := ReadAt(input, 3);
          if r2.Got? && r2.b == '~' as int && r1.b == '3' as int then Decoded(DeleteKey, 4) else Decoded(EscKey, 4)
        else if r1.b == 'A' as int then Decoded(ArrowUp, 3)
        else if r1.b == 'B' as int then Decoded(ArrowDown, 3)
        else if r1.b == 'C' as int then Decoded(ArrowRight, 3)
        else if r1.b == 'D' as int then Decoded(ArrowLeft, 3)
        else Decoded(EscKey, 3)
  }

  /** n reads that time out. */
  function Idles(n: nat): (r: seq<Read>)
    ensures |r| == n && forall i :: 0 <= i < n ==> r[i] == Idle
  {
    if n == 0 then [] else [Idle] + Idles(n - 1)
  }

  /** Reads that time out before a key only add to the reads used: the key
      is the same. */
  lemma {:induction false} IdleReadsSkipped(n: nat, input: seq<Read>)
    requires Arrives(input)
    ensures Arrives(Idles(n) + input)
    ensures ReadKey(Idles(n) + input) == Decoded(ReadKey(input).key, n + ReadKey(input).used)
  {
    var all := Idles(n) + input;
    WaitedAfterIdles(n, input);
    assert all[n + Waited(input)..] == input[Waited(input)..];
  }

  lemma {:induction false} WaitedAfterIdles(n: nat, input: seq<Read>)
    ensures Waited(Idles(n) + input) == n + Waited(input)
  {
    if n > 0 {
      assert (Idles(n) + input)[1..] == Idles(n - 1) + input;
      WaitedAfterIdles(n - 1, input);
    } else {
      assert Idles(n) + input == input;
    }
  }

  /** The bytes a VT100-style terminal sends for each key read_key knows. */
  function Encode(key: int): (r: seq<Read>)
    requires IsKeyCode(key)
    ensures 1 <= |r| <= 4 && r[0].Got?
  {
    if key == ArrowUp then [Got(27), Got('[' as int), Got('A' as int)]
    else if key == ArrowDown then [Got(27), Got('[' as int), Got('B' as int)]
    else if key == ArrowRight then [Got(27), Got('[' as int), Got('C' as int)]
    else if key == ArrowLeft then [Got(27), Got('[' as int), Got('D' as int)]
    else if key == DeleteKey then [Got(27), Got('[' as int), Got('3' as int), Got('~' as int)]
    else [Got(key)]
  }

  /** Every key other than Escape is read back from its encoding, whatever
      follows it, and exactly its bytes are consumed. */
  lemma DecodeEncode(key: int, rest: seq<Read>)
    requires IsKeyCode(key) && key != EscKey
    ensures ReadKey(Encode(key) + rest) == Decoded(key, |Encode(key)|)
  {
    var input := Encode(key) + rest;
    if key == DeleteKey {
      assert ReadAt(input, 1) == Got('[' as int) && ReadAt(input, 2) == Got('3' as int);
      assert ReadAt(input, 3) == Got('~' as int);
    } else if IsArrow(key) {
      assert ReadAt(input, 1) == Got('[' as int) && ReadAt(input, 2) == input[2];
    } else {
      assert input[0] == Got(key);
    }
  }

  /** A lone Escape is recognised only once the next read brings no byte
      (it timed out or failed), and that read is consumed as well. */
  lemma LoneEscape(next: Read, rest: seq<Read>)
    requires !next.Got?
    ensures ReadKey([Got(EscKey), next] + rest) == Decoded(EscKey, 2)
  {
    assert Waited([Got(EscKey), next] + rest) == 0;
  }

  /** Escape sequences read_key does not know still consume their bytes and
      collapse to Escape: "ESC [ 5 ~" (Page Up), "ESC [ H" (Home) and
      "ESC O A" (application-mode Up). */
  lemma UnknownSequences()
    ensures ReadKey([Got(27), Got('[' as int), Got('5' as int), Got('~' as int)]) == Decoded(EscKey, 4)
    ensures ReadKey([Got(27), Got('[' as int), Got('H' as int)]) == Decoded(EscKey, 3)
    ensures ReadKey([Got(27), Got('O' as int), Got('A' as int)]) == Decoded(EscKey, 3)
  {
  }

  /** A byte other than Escape is returned as is: bytes 128..255 are not
      sign-extended. */
  lemma PlainBytes(b: Byte, rest: seq<Read>)
    requires b != EscKey
    ensures ReadKey([Got(b)] + rest) == Decoded(b, 1)
  {
  }

  /** Consecutive keys: decoding a concatenation of encodings yields the
      keys in order. */
  function ReadKeys(input: seq<Read>): seq<int>
    decreases |input|
  {
    if !Arrives(input) then []
    else
      var d := ReadKey(input);
      if d.used >= |input| then [d.key] else [d.key] + ReadKeys(input[d.used..])
  }

  lemma {:induction false} DecodeEncodeAll(keys: seq<int>)
    requires forall i :: 0 <= i < |keys| ==> IsKeyCode(keys[i]) && keys[i] != EscKey
    ensures ReadKeys(EncodeAll(keys)) == keys
  {
    if keys != [] {
      var input := EncodeAll(keys);
      assert input == Encode(keys[0]) + EncodeAll(keys[1..]);
      DecodeEncode(keys[0], EncodeAll(keys[1..]));
      assert input[|Encode(keys[0])|..] == EncodeAll(keys[1..]);
      DecodeEncodeAll(keys[1..]);
      if keys[1..] == [] {
        assert keys == [keys[0]];
      } else {
        assert keys == [keys[0]] + keys[1..];
      }
    }
  }

  function EncodeAll(keys: seq<int>): (r: seq<Read>)
    requires forall i :: 0 <= i < |keys| ==> IsKeyCode(keys[i])
    ensures keys == [] <==> r == []
  {
    if keys == [] then [] else Encode(keys[0]) + EncodeAll(keys[1..])
  }
}
