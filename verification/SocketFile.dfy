/** The file that stands for an emulated Unix socket: a decimal port, a newline and a
    nonce of sixteen bytes. One program prints it, others parse it from an input stream. */
module SocketFile {
  import opened Bytes
  import opened Handshake

  const NEWLINE: uint8 := 10
  const INT_MAX: int := 0x7FFF_FFFF
  const INT_MIN: int := -0x8000_0000

  datatype Contact = Contact(port: int, nonce: seq<uint8>) | InvalidPort | CannotReadNonce

  predicate IsSpace(b: uint8) {
    b == 32 || 9 <= b <= 13
  }

  predicate IsDigit(b: uint8) {
    48 <= b <= 57
  }

  predicate IsSign(b: uint8) {
    b == 43 || b == 45
  }

  predicate IsNewline(b: uint8) {
    b == NEWLINE
  }

  // ---------------------------------------------------------------- the printer

  function Decimal(n: nat): (s: seq<uint8>)
    ensures s != [] && forall k :: 0 <= k < |s| ==> IsDigit(s[k])
  {
    if n < 10 then [48 + n] else Decimal(n / 10) + [48 + n % 10]
  }

  function Print(port: nat, nonce: seq<uint8>): seq<uint8> {
    Decimal(port) + [NEWLINE] + nonce
  }

  function ValueOf(digits: seq<uint8>): (n: nat)
    requires forall k :: 0 <= k < |digits| ==> IsDigit(digits[k])
  {
    if digits == [] then 0
    else
      var last: int := digits[|digits| - 1];
      assert IsDigit(last);
      ValueOf(digits[..|digits| - 1]) * 10 + (last - 48)
  }

  lemma {:induction false} ValueOfDecimal(n: nat)
    ensures ValueOf(Decimal(n)) == n
  {
    if n >= 10 {
      ValueOfDecimal(n / 10);
      assert Decimal(n)[..|Decimal(n)| - 1] == Decimal(n / 10);
    }
  }

  function Power10(n: nat): nat {
    if n == 0 then 1 else 10 * Power10(n - 1)
  }

  /** Digits are read from the most significant one on. */
  lemma {:induction false} ValueOfDigits(first: uint8, others: seq<uint8>)
    requires IsDigit(first) && forall k :: 0 <= k < |others| ==> IsDigit(others[k])
    ensures ValueOf([first] + others) == (first - 48) * Power10(|others|) + ValueOf(others)
  {
    var all := [first] + others;
    var n := |others|;
    if others == [] {
      assert all == [first] && all[..0] == [];
    } else {
      var front := others[..n - 1];
      assert all[..n] == [first] + front && all[n] == others[n - 1];
      ValueOfDigits(first, front);
      var d: int := first - 48;
      Distribute(d, Power10(n - 1), ValueOf(front));
    }
  }

  lemma Distribute(d: int, p: int, v: int)
    ensures (d * p + v) * 10 == d * (10 * p) + v * 10
  {
  }

  lemma {:induction false} DecimalIsShortest(n: nat)
    ensures |Decimal(n)| > 1 ==> Decimal(n)[0] != 48
    ensures n > 0 ==> Decimal(n)[0] != 48
  {
    if n >= 10 {
      DecimalIsShortest(n / 10);
      assert Decimal(n)[0] == Decimal(n / 10)[0];
    }
  }

  /** The printed file: digits worth the port, without leading zeros, one newline, the nonce. */
  lemma PrintLayout(port: nat, nonce: seq<uint8>) returns (digits: seq<uint8>)
    ensures Print(port, nonce) == digits + [10] + nonce
    ensures digits != [] && forall k :: 0 <= k < |digits| ==> 48 <= digits[k] <= 57
    ensures ValueOf(digits) == port && (|digits| > 1 ==> digits[0] != 48)
  {
    digits := Decimal(port);
    assert forall k :: 0 <= k < |digits| ==> IsDigit(digits[k]);
    ValueOfDecimal(port);
    DecimalIsShortest(port);
  }

  // ---------------------------------------------------------------- what a parser makes of a file

  /** Where the bytes satisfying `p` that start at `i` end. */
  function RunEnd(s: seq<uint8>, i: nat, p: uint8 -> bool): (e: nat)
    requires i <= |s|
    ensures i <= e <= |s|
    ensures forall k :: i <= k < e ==> p(s[k])
    ensures e < |s| ==> !p(s[e])
    decreases |s| - i
  {
    if i < |s| && p(s[i]) then RunEnd(s, i + 1, p) else i
  }

  lemma {:induction false} RunEndIs(s: seq<uint8>, i: nat, e: nat, p: uint8 -> bool)
    requires i <= e <= |s| && (forall k :: i <= k < e ==> p(s[k])) && (e < |s| ==> !p(s[e]))
    ensures RunEnd(s, i, p) == e
    decreases e - i
  {
    if i < e {
      RunEndIs(s, i + 1, e, p);
    }
  }

  function Signed(sign: uint8, n: int): int {
    if sign == 45 then -n else n
  }

  function Saturated(v: int): int {
    if v > INT_MAX then INT_MAX else if v < INT_MIN then INT_MIN else v
  }

  /** Extracting an integer at `i`: the value left in the variable, whether the stream is
      still good, and where the cursor is. A stream with nothing but white space leaves
      the variable as it was. */
  function Extract(s: seq<uint8>, initial: int): (r: (int, bool, nat))
    ensures r.2 <= |s|
  {
    var i := RunEnd(s, 0, IsSpace);
    if i == |s| then (initial, false, i)
    else
      var j := if IsSign(s[i]) then i + 1 else i;
      var e := RunEnd(s, j, IsDigit);
      if e == j then (0, false, e)
      else
        var v := Signed(s[i], ValueOf(s[j..e]));
        (Saturated(v), Saturated(v) == v, e)
  }

  function Parse(s: seq<uint8>, initial: int): Contact {
    var (port, good, e) := Extract(s, initial);
    if port < 0 || port > 65535 then InvalidPort
    else if !good then CannotReadNonce
    else
      var k := RunEnd(s, e, IsNewline);
      if k + NONCE_LENGTH > |s| then CannotReadNonce
      else Contact(port, s[k..k + NONCE_LENGTH])
  }

  // ---------------------------------------------------------------- the language of socket files

  /** Where the sign, the digits, the newlines and the nonce of a file begin. */
  datatype Cuts = Cuts(sign: nat, digits: nat, newlines: nat, nonce: nat)

  ghost predicate All(s: seq<uint8>, from: nat, to: nat, p: uint8 -> bool)
    requires from <= to <= |s|
  {
    forall k :: from <= k < to ==> p(s[k])
  }

  ghost predicate Describes(s: seq<uint8>, c: Cuts, port: int) {
    && c.sign <= c.digits <= c.sign + 1 && c.digits < c.newlines <= c.nonce && c.nonce + NONCE_LENGTH <= |s|
    && All(s, 0, c.sign, IsSpace) && All(s, c.sign, c.digits, IsSign)
    && All(s, c.digits, c.newlines, IsDigit) && All(s, c.newlines, c.nonce, IsNewline)
    && !IsNewline(s[c.nonce]) && (c.newlines == c.nonce ==> !IsDigit(s[c.nonce]))
    && 0 <= port <= 65535 && port == Signed(s[c.sign], ValueOf(s[c.digits..c.newlines]))
  }

  lemma Extracted(s: seq<uint8>, c: Cuts, port: int, initial: int)
    requires Describes(s, c, port)
    ensures Extract(s, initial) == (port, true, c.newlines)
  {
    hide ValueOf, RunEnd;
    assert IsDigit(s[c.digits]);
    RunEndIs(s, 0, c.sign, IsSpace);
    RunEndIs(s, c.digits, c.newlines, IsDigit);
    assert IsSign(s[c.sign]) <==> c.digits == c.sign + 1;
  }

  lemma Compose(s: seq<uint8>, c: Cuts, port: int, initial: int)
    requires Describes(s, c, port)
    ensures Parse(s, initial) == Contact(port, s[c.nonce..c.nonce + NONCE_LENGTH])
  {
    hide ValueOf, Extract, RunEnd;
    Extracted(s, c, port, initial);
    RunEndIs(s, c.newlines, c.nonce, IsNewline);
  }

  lemma Decompose(s: seq<uint8>, initial: int) returns (c: Cuts)
    requires Parse(s, initial).Contact?
    ensures Describes(s, c, Parse(s, initial).port)
    ensures s[c.nonce..c.nonce + NONCE_LENGTH] == Parse(s, initial).nonce
  {
    hide ValueOf, Decimal;
    var i := RunEnd(s, 0, IsSpace);
    var j := if IsSign(s[i]) then i + 1 else i;
    var e := RunEnd(s, j, IsDigit);
    c := Cuts(i, j, e, RunEnd(s, e, IsNewline));
  }

  /** A parser takes a file for a contact exactly when the file consists of white space, an
      optional sign, digits worth a port, newlines, and a nonce that cannot be mistaken for
      more of those; and then it reads that port and that nonce. */
  lemma ParseMeaning(s: seq<uint8>, initial: int, port: int, nonce: seq<uint8>)
    ensures Parse(s, initial) == Contact(port, nonce) <==>
            exists c: Cuts :: Describes(s, c, port) && s[c.nonce..c.nonce + NONCE_LENGTH] == nonce
  {
    if Parse(s, initial) == Contact(port, nonce) {
      var c := Decompose(s, initial);
    }
    forall c: Cuts | Describes(s, c, port) && s[c.nonce..c.nonce + NONCE_LENGTH] == nonce
      ensures Parse(s, initial) == Contact(port, nonce)
    {
      Compose(s, c, port, initial);
    }
  }

  /** What the listener prints is read back, exactly when the nonce does not begin with a
      newline; otherwise the parser gives up and never sees another nonce. */
  lemma PrintParse(port: nat, nonce: seq<uint8>, initial: int)
    requires port <= 65535 && |nonce| == NONCE_LENGTH
    ensures Parse(Print(port, nonce), initial) ==
            if nonce[0] != NEWLINE then Contact(port, nonce) else CannotReadNonce
  {
    hide Decimal, ValueOf;
    var s, d := Print(port, nonce), Decimal(port);
    ValueOfDecimal(port);
    assert s[0..|d|] == d && s[|d|] == NEWLINE && s[|d| + 1..] == nonce;
    assert forall k :: 0 <= k < |d| ==> s[k] == d[k];
    if nonce[0] != NEWLINE {
      Compose(s, Cuts(0, 0, |d|, |d| + 1), port, initial);
    } else {
      RunEndIs(s, 0, 0, IsSpace);
      RunEndIs(s, 0, |d|, IsDigit);
      assert s[|d| + 1] == nonce[0];
      assert RunEnd(s, |d|, IsNewline) > |d| + 1;
    }
  }

  // ---------------------------------------------------------------- the stream and the parser

  class InputFile {
    const content: seq<uint8>
    var next: nat
    var good: bool

    ghost predicate Valid()
      reads this
    {
      next <= |content|
    }

    constructor (content: seq<uint8>)
      ensures Valid() && this.content == content && next == 0 && good
    {
      this.content := content;
      next, good := 0, true;
    }

    /** Skips bytes satisfying `p`. */
    method Skip(p: uint8 -> bool)
      requires Valid()
      modifies this
      ensures Valid() && next == RunEnd(content, old(next), p) && good == old(good)
    {
      while next < |content| && p(content[next])
        invariant Valid() && RunEnd(content, next, p) == RunEnd(content, old(next), p) && good == old(good)
        decreases |content| - next
      {
        next := next + 1;
      }
    }

    /** Reads digits and returns their value. */
    method Digits() returns (n: nat)
      requires Valid()
      modifies this
      ensures Valid() && next == RunEnd(content, old(next), IsDigit) && good == old(good)
      ensures n == ValueOf(content[old(next)..next])
    {
      n := 0;
      ghost var from := next;
      while next < |content| && IsDigit(content[next])
        invariant from <= next <= |content| && good == old(good)
        invariant RunEnd(content, next, IsDigit) == RunEnd(content, from, IsDigit)
        invariant n == ValueOf(content[from..next])
        decreases |content| - next
      {
        assert content[from..next + 1][..next - from] == content[from..next];
        n := n * 10 + (content[next] - 48);
        next := next + 1;
      }
    }

    /** The extraction operator for integers. */
    method ExtractInt(initial: int) returns (value: int)
      requires Valid() && next == 0 && good
      modifies this
      ensures Valid() && (value, good, next) == Extract(content, initial)
    {
      Skip(IsSpace);
      if next == |content| {
        good := false;
        return initial;
      }
      var sign := content[next];
      if IsSign(content[next]) {
        next := next + 1;
      }
      var j := next;
      var n := Digits();
      if next == j {
        good := false;
        return 0;
      }
      value := Signed(sign, n);
      if value > INT_MAX {
        value, good := INT_MAX, false;
      } else if value < INT_MIN {
        value, good := INT_MIN, false;
      }
    }

    /** Reads up to `n` bytes, none from a stream that has failed. */
    method Read(n: nat) returns (bytes: seq<uint8>)
      requires Valid()
      modifies this
      ensures Valid() && next == old(next) + |bytes| && bytes == content[old(next)..next]
      ensures |bytes| == if old(good) then Min(n, |content| - old(next)) else 0
      ensures good == (old(good) && |bytes| == n)
    {
      if !good {
        return [];
      }
      var count := Min(n, |content| - next);
      bytes := content[next..next + count];
      next := next + count;
      good := count == n;
    }
  }

  /** Reading the contact; `initial` is whatever the port variable held. */
  method ReadContact(content: seq<uint8>, initial: int) returns (contact: Contact)
    ensures contact == Parse(content, initial)
  {
    var file := new InputFile(content);
    var port := file.ExtractInt(initial);
    if port < 0 || port > 65535 {
      return InvalidPort;
    }
    if file.good {
      file.Skip(IsNewline);
    }
    var nonce := file.Read(NONCE_LENGTH);
    contact := if |nonce| != NONCE_LENGTH then CannotReadNonce else Contact(port, nonce);
  }
}
