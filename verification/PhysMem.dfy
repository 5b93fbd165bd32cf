/** Physical memory as 8.UserProcess sees it: one byte for each 32-bit address. */
module PhysMem {
  import opened FsFormat

  const PAGE_SIZE: nat := 4096

  type Memory = m: seq<Byte> | |m| == TWO32 witness Zeros(TWO32)

  /** n bytes of value v. */
  function Same(v: Byte, n: nat): (s: seq<Byte>)
    ensures |s| == n && forall i :: 0 <= i < n ==> s[i] == v
  {
    seq(n, _ => v)
  }

  function WordBytes(v: U32): (s: seq<Byte>)
    ensures |s| == 4 && forall k :: 0 <= k < 4 ==> s[k] == WordByte(v, k)
  {
    [WordByte(v, 0), WordByte(v, 1), WordByte(v, 2), WordByte(v, 3)]
  }

  /** A word stored is read back; words that do not meet it are as they were. */
  lemma WordStored(m: seq<Byte>, a: nat, v: U32, x: nat)
    requires a + 4 <= |m| && x + 4 <= |m|
    ensures Word(Overwrite(m, a, WordBytes(v)), a) == v
    ensures x + 4 <= a || a + 4 <= x ==> Word(Overwrite(m, a, WordBytes(v)), x) == Word(m, x)
  {
    var r := Overwrite(m, a, WordBytes(v));
    WordOfBytes(r, a, v);
  }

  lemma WordZero(m: seq<Byte>, a: nat, n: nat, x: nat)
    requires a + n <= |m| && a <= x && x + 4 <= a + n
    ensures Word(Overwrite(m, a, Same(0, n)), x) == 0
  {
  }

  method Memset(mem: array<Byte>, a: nat, v: Byte, n: nat)
    requires a + n <= mem.Length
    modifies mem
    ensures mem[..] == Overwrite(old(mem[..]), a, Same(v, n))
  {
    var i := 0;
    while i < n
      invariant i <= n
      invariant forall k :: 0 <= k < mem.Length ==> mem[k] == if a <= k < a + i then v else old(mem[k])
    {
      mem[a + i] := v;
      i := i + 1;
    }
  }

  method Memcpy(mem: array<Byte>, dst: nat, src: nat, n: nat)
    requires dst + n <= mem.Length && src + n <= mem.Length && (dst + n <= src || src + n <= dst)
    modifies mem
    ensures mem[..] == Overwrite(old(mem[..]), dst, old(mem[src..src + n]))
  {
    var i := 0;
    while i < n
      invariant i <= n
      invariant forall k :: 0 <= k < mem.Length ==>
          mem[k] == if dst <= k < dst + i then old(mem[src + (k - dst)]) else old(mem[k])
    {
      mem[dst + i] := mem[src + i];
      i := i + 1;
    }
  }

  method PutWord(mem: array<Byte>, a: nat, v: U32)
    requires a + 4 <= mem.Length
    modifies mem
    ensures mem[..] == Overwrite(old(mem[..]), a, WordBytes(v))
  {
    mem[a] := WordByte(v, 0);
    mem[a + 1] := WordByte(v, 1);
    mem[a + 2] := WordByte(v, 2);
    mem[a + 3] := WordByte(v, 3);
  }

  method GetWord(mem: array<Byte>, a: nat) returns (v: U32)
    requires a + 4 <= mem.Length
    ensures v == Word(mem[..], a)
  {
    v := mem[a] as int + 0x100 * mem[a + 1] as int + 0x1_0000 * mem[a + 2] as int + 0x100_0000 * mem[a + 3] as int;
  }
}
