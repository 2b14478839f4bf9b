/** UTF-8 as RFC 3629, section 3 lays it out, to count what a string takes. */
module Utf8 {
  import opened Normalize

  /** The bytes of one code point. */
  function CharBytes(c: nat): (r: seq<nat>)
    requires c < 0x11_0000
    ensures forall i :: 0 <= i < |r| ==> r[i] < 256
    ensures |r| > 0 && forall i :: 0 < i < |r| ==> 0x80 <= r[i] < 0xC0
  {
    if c < 0x80 then [c]
    else if c < 0x800 then [0xC0 + c / 64, 0x80 + c % 64]
    else if c < 0x1_0000 then [0xE0 + c / 64 / 64, 0x80 + c / 64 % 64, 0x80 + c % 64]
    else [0xF0 + c / 64 / 64 / 64, 0x80 + c / 64 / 64 % 64, 0x80 + c / 64 % 64, 0x80 + c % 64]
  }

  /** The code point a first byte and its continuation bytes stand for. */
  function CodePoint(bytes: seq<nat>): nat
    requires bytes != []
  {
    var lead :=
      if bytes[0] >= 0xF0 then bytes[0] - 0xF0
      else if bytes[0] >= 0xE0 then bytes[0] - 0xE0
      else if bytes[0] >= 0xC0 then bytes[0] - 0xC0
      else bytes[0];
    match |bytes|
    case 1 => lead
    case 2 => lead * 64 + bytes[1] % 64
    case 3 => (lead * 64 + bytes[1] % 64) * 64 + bytes[2] % 64
    case _ => if |bytes| < 4 then lead else ((lead * 64 + bytes[1] % 64) * 64 + bytes[2] % 64) * 64 + bytes[3] % 64
  }

  lemma CharBytesDecode(c: nat)
    requires c < 0x11_0000
    ensures CodePoint(CharBytes(c)) == c
  {
    var bytes := CharBytes(c);
    assert forall i :: 0 < i < |bytes| ==> bytes[i] % 64 == bytes[i] - 0x80;
  }

  function Bytes(s: string): seq<nat> {
    if s == "" then [] else CharBytes(s[0] as nat) + Bytes(s[1..])
  }

  /** The size the limits are compared with is the number of bytes. */
  lemma {:induction false} ByteLenCounts(s: string)
    ensures ByteLen(s) == |Bytes(s)|
  {
    if s != "" {
      ByteLenCounts(s[1..]);
    }
  }

  function Joined(argv: seq<string>): string {
    if argv == [] then "" else argv[0] + Joined(argv[1..])
  }

  lemma {:induction false} BytesJoin(a: string, b: string)
    ensures Bytes(a + b) == Bytes(a) + Bytes(b)
  {
    if a == "" {
      assert a + b == b;
    } else {
      BytesJoin(a[1..], b);
      assert (a + b)[1..] == a[1..] + b && (a + b)[0] == a[0];
    }
  }

  lemma {:induction false} JoinedPut(argv: seq<string>, last: string)
    ensures Joined(argv + [last]) == Joined(argv) + last
  {
    if argv == [] {
      assert [] + [last] == [last] && [last][1..] == [];
    } else {
      JoinedPut(argv[1..], last);
      assert (argv + [last])[1..] == argv[1..] + [last] && (argv + [last])[0] == argv[0];
    }
  }

  /** Of an argument list it is the number of bytes of all arguments together. */
  lemma {:induction false} TotalBytesCounts(argv: seq<string>)
    ensures TotalBytes(argv) == |Bytes(Joined(argv))|
  {
    if argv != [] {
      var front, last := argv[..|argv| - 1], argv[|argv| - 1];
      assert argv == front + [last];
      TotalBytesCounts(front);
      JoinedPut(front, last);
      BytesJoin(Joined(front), last);
      ByteLenCounts(last);
    }
  }
}
