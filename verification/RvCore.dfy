/** The processor state of the emulated RISC-V machine, and its image in a snapshot file. */
module RvCore {
  import opened Psram

  const TWO32 := 0x1_0000_0000

  type Word = x: int | 0 <= x < TWO32

  /** Unsigned 32-bit wrap-around. */
  function U(x: int): Word {
    x % TWO32
  }

  type Regs = r: seq<Word> | |r| == 32 witness seq(32, _ => 0)

  /** `struct MiniRV32IMAState`, in the order of its fields. */
  datatype Core = Core(
    regs: Regs,
    pc: Word, mstatus: Word, cyclel: Word, cycleh: Word,
    timerl: Word, timerh: Word, timermatchl: Word, timermatchh: Word,
    mscratch: Word, mtvec: Word, mie: Word, mip: Word,
    mepc: Word, mtval: Word, mcause: Word, extraflags: Word)
  {
    function Words(): seq<Word> {
      regs + [pc, mstatus, cyclel, cycleh, timerl, timerh, timermatchl, timermatchh,
              mscratch, mtvec, mie, mip, mepc, mtval, mcause, extraflags]
    }
  }

  function Blank(): Core {
    var zero: Word := 0;
    FromWords(seq(CORE_WORDS, _ => zero))
  }

  const CORE_WORDS := 48
  const CORE_BYTES := 192

  function FromWords(w: seq<Word>): Core
    requires |w| == CORE_WORDS
  {
    Core(w[..32], w[32], w[33], w[34], w[35], w[36], w[37], w[38], w[39],
         w[40], w[41], w[42], w[43], w[44], w[45], w[46], w[47])
  }

  /** A word as four bytes, lowest first. */
  function WordBytes(w: Word): (b: seq<Byte>)
    ensures |b| == 4
  {
    var x: int := w;
    [x % 256, x / 256 % 256, x / 0x1_0000 % 256, x / 0x100_0000 % 256]
  }

  function BytesWord(b: seq<Byte>): Word
    requires |b| == 4
  {
    b[0] as int + 256 * b[1] as int + 0x1_0000 * b[2] as int + 0x100_0000 * b[3] as int
  }

  lemma BytesWordBytes(w: Word)
    ensures BytesWord(WordBytes(w)) == w
  {
    var x: int := w;
    assert x / 0x1_0000 == x / 256 / 256 && x / 0x100_0000 == x / 0x1_0000 / 256;
  }

  /** Little-endian bytes of words. */
  function Pack(w: seq<Word>): (b: seq<Byte>)
    ensures |b| == 4 * |w|
  {
    if w == [] then [] else WordBytes(w[0]) + Pack(w[1..])
  }

  function Unpack(b: seq<Byte>): (w: seq<Word>)
    requires |b| % 4 == 0
    ensures 4 * |w| == |b|
  {
    if b == [] then [] else [BytesWord(b[..4])] + Unpack(b[4..])
  }

  lemma {:induction false} UnpackPack(w: seq<Word>)
    ensures Unpack(Pack(w)) == w
  {
    if w != [] {
      hide WordBytes, BytesWord;
      UnpackPack(w[1..]);
      BytesWordBytes(w[0]);
      assert Pack(w)[..4] == WordBytes(w[0]) && Pack(w)[4..] == Pack(w[1..]);
    }
  }

  /** The bytes of the struct. */
  function Save(c: Core): (b: seq<Byte>)
    ensures |b| == CORE_BYTES
  {
    Pack(c.Words())
  }

  lemma {:induction false} PackedAt(w: seq<Word>, k: nat)
    requires k < |w|
    ensures Pack(w)[4 * k..4 * k + 4] == WordBytes(w[k])
    decreases k
  {
    hide WordBytes;
    if k > 0 {
      PackedAt(w[1..], k - 1);
      assert Pack(w)[4 * k..4 * k + 4] == Pack(w[1..])[4 * k - 4..4 * k];
    }
  }

  /** Where the struct keeps each field. */
  function Place(c: Core, at: nat): Word {
    match at
    case 128 => c.pc
    case 132 => c.mstatus
    case 136 => c.cyclel
    case 140 => c.cycleh
    case 144 => c.timerl
    case 148 => c.timerh
    case 152 => c.timermatchl
    case 156 => c.timermatchh
    case 160 => c.mscratch
    case 164 => c.mtvec
    case 168 => c.mie
    case 172 => c.mip
    case 176 => c.mepc
    case 180 => c.mtval
    case 184 => c.mcause
    case 188 => c.extraflags
    case _ => if at % 4 == 0 && at < 128 then c.regs[at / 4] else 0
  }

  /** Each field is in the bytes of the struct at its place. */
  lemma {:induction false} StructLayout(c: Core, at: nat)
    requires at % 4 == 0 && at < 192
    ensures Save(c)[at..at + 4] == WordBytes(Place(c, at))
  {
    hide WordBytes, Pack;
    PackedAt(c.Words(), at / 4);
    assert c.Words()[at / 4] == Place(c, at);
  }

  function Restore(b: seq<Byte>): Core
    requires |b| == CORE_BYTES
  {
    FromWords(Unpack(b))
  }

  /** A struct read back from its bytes is the same. */
  lemma {:induction false} RestoreSave(c: Core)
    ensures Restore(Save(c)) == c
  {
    UnpackPack(c.Words());
    assert c.Words()[..32] == c.regs;
  }
}
