/**
 * The instruction decoder of the toy VM: an instruction header byte carries
 * the command in its low nibble and, for MOV, the transfer submode in its
 * high nibble.  The extractors are stated on the byte's value; lemmas show
 * that they agree with the masks and shift of the C macros CMD_OF and
 * TX_TYPE_OF on the byte's bits.
 */
module Decoder {

  /** A memory cell.  The model assumes `char` is unsigned (0..255). */
  type Byte = b: int | 0 <= b < 256

  /** A nibble, what the masks leave of a byte. */
  type Nibble = n: int | 0 <= n < 16

  // Commands (the low nibble of a header).
  const CmdHalt: Nibble := 0
  const CmdInc: Nibble := 1
  const CmdMov: Nibble := 2
  const CmdCmp: Nibble := 3
  const CmdJmpNe: Nibble := 4

  // MOV transfer submodes (the high nibble of a MOV header).  The names are
  // the source's own; TxReg2Mem actually loads a register from memory and
  // TxMem2Reg stores a register into memory (see Vm.Step).
  const TxReg2Reg: Nibble := 0
  const TxReg2Mem: Nibble := 1
  const TxMem2Reg: Nibble := 2
  const TxMem2Mem: Nibble := 3

  const CmdMask: bv8 := 0x0f
  const TxTypeMask: bv8 := 0xf0

  /** CMD_OF: the header's low nibble (see CmdOfIsMasked for the mask). */
  function CmdOf(ins: Byte): (c: Nibble)
  {
    ins % 16
  }

  /** TX_TYPE_OF: the header's high nibble (see TxTypeOfIsMasked). */
  function TxTypeOf(ins: Byte): (t: Nibble)
  {
    ins / 16
  }

  /** A header as the program image builds it (see EncodeHeaderIsOr). */
  function EncodeHeader(cmd: Nibble, sub: Nibble): (ins: Byte)
  {
    cmd + 16 * sub
  }

  /** CmdOf is `ins & CMD_MASK` on the bits of every byte. */
  lemma CmdOfIsMasked(b: bv8)
    ensures CmdOf(b as int) == (b & CmdMask) as int
  {
  }

  /** TxTypeOf is `(ins & TX_TYPE_MASK) >> 4` on the bits of every byte. */
  lemma TxTypeOfIsMasked(b: bv8)
    ensures TxTypeOf(b as int) == ((b & TxTypeMask) >> 4) as int
  {
  }

  /** EncodeHeader is `cmd | (sub << 4)` on the bits. */
  lemma EncodeHeaderIsOr(cmd: bv8, sub: bv8)
    requires cmd < 16 && sub < 16
    ensures EncodeHeader(cmd as int, sub as int) == (cmd | (sub << 4)) as int
  {
  }

  /** Decoding an encoded header gives back its command and submode. */
  lemma DecodeEncodeHeader(cmd: Nibble, sub: Nibble)
    ensures CmdOf(EncodeHeader(cmd, sub)) == cmd
    ensures TxTypeOf(EncodeHeader(cmd, sub)) == sub
  {
    NibblesOf(cmd, sub);
  }

  /** A header byte is determined by its two nibbles. */
  lemma EncodeDecodeHeader(ins: Byte)
    ensures EncodeHeader(CmdOf(ins), TxTypeOf(ins)) == ins
  {
  }

  lemma NibblesOf(lo: Nibble, hi: Nibble)
    ensures (lo + 16 * hi) % 16 == lo
    ensures (lo + 16 * hi) / 16 == hi
  {
  }
}
