/**
 * The two address encoders: `Register::raddr`/`waddr` of
 * src/lowlevel/registers.rs, which take an access mode and apply a rule per
 * register category, and the older ones of src/lowlevel/registers/mod.rs,
 * which take no mode and are what src/lowlevel.rs calls.
 */
module Encoders {
  import opened Wrappers
  import Access
  import Configs
  import Statuses
  import Commands

  /** `Register`: the tagged union of the four categories. */
  datatype Register =
      Command(command: Commands.Command)
    | Config(config: Configs.Config)
    | MultiByte(multiByte: Commands.MultiByte)
    | Status(status: Statuses.Status)

  /** The six address bits a register is reached at. */
  function Base(r: Register): (b: Byte)
    ensures b < 0x40
  {
    match r
    case Command(c) => Commands.OpcodeRoundTrip(c); Commands.Opcode(c)
    case Config(c) => Configs.BaseRoundTrip(c); Configs.Base(c)
    case MultiByte(m) => Commands.MultiByteBase(m)
    case Status(s) => Statuses.BaseRoundTrip(s); Statuses.Base(s)
  }

  /**
   * The header of a command strobe.  The revision of command.rs that
   * registers.rs is written against is not part of this model; its
   * `addr(access, mode)` is taken to be `access | mode | opcode`, as for the
   * other categories.
   */
  function CommandAddr(c: Commands.Command, d: Access.Direction, m: Access.Mode): Byte {
    Access.Header(d, m, Commands.Opcode(c))
  }

  /** `Register::raddr(mode)`: commands use Single, status registers Burst, the rest the mode given. */
  function RAddr(r: Register, m: Access.Mode): Byte {
    match r
    case Command(c) => CommandAddr(c, Access.Read, Access.Single)
    case Config(c) => Configs.Addr(c, Access.Read, m)
    case MultiByte(b) => Commands.MultiByteAddr(b, Access.Read, m)
    case Status(s) => Statuses.Addr(s, Access.Read, Access.Burst)
  }

  /**
   * `Register::waddr(mode)`: commands use Single, the rest the mode given;
   * a status register `panic!`s, which is `None` here.
   */
  function WAddr(r: Register, m: Access.Mode): Option<Byte> {
    match r
    case Command(c) => Some(CommandAddr(c, Access.Write, Access.Single))
    case Config(c) => Some(Configs.Addr(c, Access.Write, m))
    case MultiByte(b) => Some(Commands.MultiByteAddr(b, Access.Write, m))
    case Status(_) => None
  }

  /** The mode each category is actually accessed in. */
  function EffectiveMode(r: Register, m: Access.Mode): Access.Mode {
    match r
    case Command(_) => Access.Single
    case Status(_) => Access.Burst
    case _ => m
  }

  /**
   * Every read header decodes to Read, the category's effective mode, and the
   * register's base: status reads are forced to burst, commands to single,
   * and the others honour the mode.
   */
  lemma RAddrFields(r: Register, m: Access.Mode)
    ensures Access.DecodeHeader(RAddr(r, m)) == (Access.Read, EffectiveMode(r, m), Base(r))
    ensures RAddr(r, m) & 0x3F == Base(r)
    ensures RAddr(r, m) & 0x80 == 0x80
  {
    Access.DecodeHeaderInverse(Access.Read, EffectiveMode(r, m), Base(r));
  }

  /**
   * Writing a status register panics and nothing else does; every write
   * header decodes to Write, the effective mode, and the base.
   */
  lemma WAddrFields(r: Register, m: Access.Mode)
    ensures WAddr(r, m).None? <==> r.Status?
    ensures WAddr(r, m).Some? ==>
      Access.DecodeHeader(WAddr(r, m).value) == (Access.Write, EffectiveMode(r, m), Base(r))
      && WAddr(r, m).value & 0x3F == Base(r)
      && WAddr(r, m).value < 0x80
  {
    Access.DecodeHeaderInverse(Access.Write, EffectiveMode(r, m), Base(r));
  }

  /** For every writable register the read header is the write header with bit 7 set. */
  lemma ReadIsWritePlusDirection(r: Register, m: Access.Mode)
    ensures WAddr(r, m).Some? ==> RAddr(r, m) == WAddr(r, m).value | 0x80
  {
    Access.DecodeHeaderInverse(Access.Read, EffectiveMode(r, m), Base(r));
    Access.DecodeHeaderInverse(Access.Write, EffectiveMode(r, m), Base(r));
  }

  /** A status read is `0x80 | 0x40 | base` whatever mode is passed. */
  lemma StatusReadIsBurst(s: Statuses.Status, m: Access.Mode)
    ensures RAddr(Status(s), m) == 0xC0 | Statuses.Base(s)
  {
  }

  /** Commands ignore the mode argument. */
  lemma CommandIgnoresMode(c: Commands.Command, m: Access.Mode)
    ensures RAddr(Command(c), m) == RAddr(Command(c), Access.Single)
    ensures WAddr(Command(c), m) == WAddr(Command(c), Access.Single)
  {
  }

  /** Both registers belong to the same category. */
  predicate SameCategory(r: Register, q: Register) {
    (r.Command? && q.Command?) || (r.Config? && q.Config?)
    || (r.MultiByte? && q.MultiByte?) || (r.Status? && q.Status?)
  }

  /** Within one category, distinct registers get distinct read headers for the same mode. */
  lemma RAddrInjective(r: Register, q: Register, m: Access.Mode)
    requires SameCategory(r, q)
    requires RAddr(r, m) == RAddr(q, m)
    ensures r == q
  {
    RAddrFields(r, m);
    RAddrFields(q, m);
    match r
    case Command(c) => Commands.OpcodeInjective(c, q.command);
    case Config(c) => Configs.BaseInjective(c, q.config);
    case MultiByte(_) =>
    case Status(s) => Statuses.BaseInjective(s, q.status);
  }

  // ---------------------------------------------------------------------
  // The older encoder, src/lowlevel/registers/mod.rs
  // ---------------------------------------------------------------------

  /** The older `Register`: no multi-byte category. */
  datatype LegacyRegister =
      LegacyCommand(command: Commands.Command)
    | LegacyConfig(config: Configs.Config)
    | LegacyStatus(status: Statuses.Status)

  /** The older `waddr()`: the mode offset of the bare address; status registers use Burst. */
  function LegacyWAddr(r: LegacyRegister): Byte {
    match r
    case LegacyCommand(c) => Access.Offset(Access.Single, Commands.Addr(c))
    case LegacyConfig(c) => Access.Offset(Access.Single, Configs.Base(c))
    case LegacyStatus(s) => Access.Offset(Access.Burst, Statuses.Base(s))
  }

  /** The older `raddr()`: 0x80 or-ed onto the same byte. */
  function LegacyRAddr(r: LegacyRegister): Byte {
    0x80 | match r
    case LegacyCommand(c) => Access.Offset(Access.Single, Commands.Addr(c))
    case LegacyConfig(c) => Access.Offset(Access.Single, Configs.Base(c))
    case LegacyStatus(s) => Access.Offset(Access.Burst, Statuses.Base(s))
  }

  /** The same register in the newer union. */
  function Upgrade(r: LegacyRegister): Register {
    match r
    case LegacyCommand(c) => Command(c)
    case LegacyConfig(c) => Config(c)
    case LegacyStatus(s) => Status(s)
  }

  /** In the older encoder the read header is the write header with bit 7 set, for every register. */
  lemma LegacyReadIsWritePlusDirection(r: LegacyRegister)
    ensures LegacyRAddr(r) == LegacyWAddr(r) | 0x80
    ensures LegacyWAddr(r) < 0x80
  {
    var b := Base(Upgrade(r));
  }

  /** The older `waddr()` of a status register is `0x40 | base` and does not fail. */
  lemma LegacyStatusWrite(s: Statuses.Status)
    ensures LegacyWAddr(LegacyStatus(s)) == 0x40 | Statuses.Base(s)
  {
  }

  /**
   * The two encoders agree at Single mode on every read, and on every write
   * the newer one allows.
   */
  lemma EncodersAgree(r: LegacyRegister)
    ensures LegacyRAddr(r) == RAddr(Upgrade(r), Access.Single)
    ensures !r.LegacyStatus? ==> WAddr(Upgrade(r), Access.Single) == Some(LegacyWAddr(r))
    ensures r.LegacyStatus? ==> WAddr(Upgrade(r), Access.Single) == None
  {
  }
}
