/**
 * The command strobes of src/lowlevel/registers/command.rs and the
 * multi-byte registers of src/lowlevel/registers/multi_byte.rs.
 */
module Commands {
  import opened Wrappers
  import Access
  import Statuses

  datatype Command =
      SRES | SFSTXON | SXOFF | SCAL | SRX | STX | SIDLE | SAFC
    | SWOR | SPWD | SFRX | SFTX | SWORRST | SNOP | PATABLE | FIFO

  /** The enum discriminant: the strobe's opcode. */
  function Opcode(c: Command): Byte {
    match c
    case SRES => 0x30
    case SFSTXON => 0x31
    case SXOFF => 0x32
    case SCAL => 0x33
    case SRX => 0x34
    case STX => 0x35
    case SIDLE => 0x36
    case SAFC => 0x37
    case SWOR => 0x38
    case SPWD => 0x39
    case SFRX => 0x3A
    case SFTX => 0x3B
    case SWORRST => 0x3C
    case SNOP => 0x3D
    case PATABLE => 0x3E
    case FIFO => 0x3F
  }

  /** The command with a given opcode, if any. */
  function FromOpcode(b: Byte): Option<Command> {
    if b < 0x30 || b > 0x3F then None
    else if b == 0x30 then Some(SRES)
    else if b == 0x31 then Some(SFSTXON)
    else if b == 0x32 then Some(SXOFF)
    else if b == 0x33 then Some(SCAL)
    else if b == 0x34 then Some(SRX)
    else if b == 0x35 then Some(STX)
    else if b == 0x36 then Some(SIDLE)
    else if b == 0x37 then Some(SAFC)
    else if b == 0x38 then Some(SWOR)
    else if b == 0x39 then Some(SPWD)
    else if b == 0x3A then Some(SFRX)
    else if b == 0x3B then Some(SFTX)
    else if b == 0x3C then Some(SWORRST)
    else if b == 0x3D then Some(SNOP)
    else if b == 0x3E then Some(PATABLE)
    else Some(FIFO)
  }

  /** The opcodes lie in 0x30..0x3F and `FromOpcode` inverts `Opcode`. */
  lemma OpcodeRoundTrip(c: Command)
    ensures 0x30 <= Opcode(c) <= 0x3F
    ensures FromOpcode(Opcode(c)) == Some(c)
  {
  }

  /** Every byte in 0x30..0x3F is an opcode, and no other byte is one. */
  lemma FromOpcodeRoundTrip(b: Byte)
    ensures FromOpcode(b).Some? <==> 0x30 <= b <= 0x3F
    ensures FromOpcode(b).Some? ==> Opcode(FromOpcode(b).value) == b
  {
  }

  /** Distinct commands have distinct opcodes. */
  lemma OpcodeInjective(c: Command, d: Command)
    requires Opcode(c) == Opcode(d)
    ensures c == d
  {
    OpcodeRoundTrip(c);
    OpcodeRoundTrip(d);
  }

  /** `Command::addr` of the shown revision: the opcode itself. */
  function Addr(c: Command): (r: Byte)
    ensures r < 0x40
  {
    OpcodeRoundTrip(c);
    Opcode(c)
  }

  /** Opcodes are below 0x40, so OR-ing in direction or mode bits leaves the low six bits alone. */
  lemma OpcodeUnderHeader(c: Command, d: Access.Direction, m: Access.Mode)
    ensures Access.Header(d, m, Addr(c)) & 0x3F == Opcode(c)
    ensures Access.DecodeHeader(Access.Header(d, m, Addr(c))) == (d, m, Opcode(c))
  {
    Access.DecodeHeaderInverse(d, m, Addr(c));
  }

  /**
   * The strobes SRES..SNOP share their numbers with the status registers
   * PARTNUM..RCCTRL0_STATUS; only the register category tells them apart.
   */
  lemma OpcodesAreStatusBases(c: Command)
    requires Opcode(c) <= 0x3D
    ensures Statuses.FromBase(Opcode(c)).Some?
    ensures Statuses.Base(Statuses.FromBase(Opcode(c)).value) == Opcode(c)
  {
    OpcodeRoundTrip(c);
    Statuses.FromBaseRoundTrip(Opcode(c));
  }

  /** `MultiByte`: the burst-accessible PA table and FIFO. */
  datatype MultiByte = MPATABLE | MFIFO

  function MultiByteBase(r: MultiByte): Byte {
    match r
    case MPATABLE => 0x3E
    case MFIFO => 0x3F
  }

  /** `MultiByte::addr`: the header byte `access | mode | base`. */
  function MultiByteAddr(r: MultiByte, d: Access.Direction, m: Access.Mode): Byte {
    Access.Header(d, m, MultiByteBase(r))
  }

  /** The multi-byte bases are the PATABLE and FIFO opcodes. */
  lemma MultiByteBases()
    ensures MultiByteBase(MPATABLE) == Opcode(PATABLE) == 0x3E
    ensures MultiByteBase(MFIFO) == Opcode(FIFO) == 0x3F
  {
  }

  /**
   * A burst read of the FIFO has header 0xFF, the byte src/lowlevel.rs
   * builds as `FIFO | 0xC0`; a burst write has 0x7F.
   */
  lemma FifoBurstHeaders()
    ensures MultiByteAddr(MFIFO, Access.Read, Access.Burst) == 0xFF
    ensures MultiByteAddr(MFIFO, Access.Read, Access.Burst) == Addr(FIFO) | 0xC0
    ensures MultiByteAddr(MFIFO, Access.Write, Access.Burst) == 0x7F
  {
  }

  /** Every multi-byte header decodes to its direction, mode and base. */
  lemma MultiByteAddrFields(r: MultiByte, d: Access.Direction, m: Access.Mode)
    ensures Access.DecodeHeader(MultiByteAddr(r, d, m)) == (d, m, MultiByteBase(r))
  {
    Access.DecodeHeaderInverse(d, m, MultiByteBase(r));
  }
}
