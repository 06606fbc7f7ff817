/**
  Machine-mode trap dispatch on a RISC-V hart. The control and status
  registers the dispatcher touches (mcause, mie, mstatus, mtvec) are held in a
  simulated `Hart`; the trap frame keeps only the saved program counter.
*/
module Interrupts {
  import opened Prelude

  /** Exception causes the dispatcher names, and every other one. */
  datatype Exception =
    | InstructionMisaligned
    | InstructionFault
    | IllegalInstruction
    | Breakpoint
    | LoadFault
    | StoreFault
    | OtherException(code: nat)

  /** Interrupt causes the dispatcher names, and every other one. */
  datatype Interrupt =
    | MachineSoft
    | MachineTimer
    | MachineExternal
    | OtherInterrupt(code: nat)

  /** A decoded mcause: a synchronous exception or an asynchronous interrupt. */
  datatype Trap = ExceptionTrap(exception: Exception) | InterruptTrap(interrupt: Interrupt)

  /** How a trap ends: back to the interrupted code, or a panic that never returns. */
  datatype Control = Resume | Halt

  datatype TrapMode = Direct | Vectored

  /** The mtvec register: handler address and vectoring mode. */
  datatype Mtvec = Mtvec(address: Usize, mode: TrapMode)

  /** A bit position in a 64-bit control and status register. */
  type BitIndex = b: nat | b < 64

  /** A control and status register, given by the positions of its set bits. */
  type Csr = set<BitIndex>

  /** Machine software interrupt enable, bit 3 of mie. */
  const MSIE: BitIndex := 3
  /** Machine timer interrupt enable, bit 7 of mie. */
  const MTIE: BitIndex := 7
  /** Machine external interrupt enable, bit 11 of mie. */
  const MEIE: BitIndex := 11
  /** Global machine interrupt enable, bit 3 of mstatus. */
  const MSTATUS_MIE: BitIndex := 3

  /** Bytes the handler advances the PC past a breakpoint: always 2, whatever the width of the instruction that trapped. */
  const BREAKPOINT_WIDTH: int := 2

  /** The machine-mode registers of one hart that traps read and write. */
  class Hart {
    var mcause: Trap
    var mie: Csr
    var mstatus: Csr
    var mtvec: Mtvec

    constructor (cause: Trap, mie0: Csr, mstatus0: Csr, mtvec0: Mtvec)
      ensures mcause == cause && mie == mie0 && mstatus == mstatus0 && mtvec == mtvec0
    {
      mcause, mie, mstatus, mtvec := cause, mie0, mstatus0, mtvec0;
    }
  }

  /** The register snapshot taken at trap entry, of which only the pc matters here. */
  class TrapFrame {
    var pc: Usize

    constructor (pc0: Usize)
      ensures pc == pc0
    {
      pc := pc0;
    }
  }

  /** Exceptions the dispatcher survives: only the breakpoint. */
  predicate Recoverable(exception: Exception)
  {
    exception == Breakpoint
  }

  /** `word` has `bit` clear and agrees with `before` on every other bit. */
  predicate ClearedOnly(before: Csr, word: Csr, bit: BitIndex)
  {
    bit !in word && forall b: BitIndex :: b != bit ==> (b in word <==> b in before)
  }

  /** `word` has every bit of `bits` set and agrees with `before` on every other bit. */
  predicate SetOnly(before: Csr, word: Csr, bits: set<BitIndex>)
  {
    bits <= word && forall b: BitIndex :: b !in bits ==> (b in word <==> b in before)
  }

  /**
    Reads the cause and routes exceptions to `HandleException` with the saved
    pc, interrupts to `HandleInterrupt`. Only the exception path can touch
    the frame; only the interrupt path can touch mie.
  */
  method TrapHandler(hart: Hart, trapFrame: TrapFrame) returns (control: Control)
    requires hart.mcause == ExceptionTrap(Breakpoint) ==> trapFrame.pc + BREAKPOINT_WIDTH < USIZE_LIMIT
    modifies hart, trapFrame
    ensures hart.mcause == old(hart.mcause) && hart.mstatus == old(hart.mstatus) && hart.mtvec == old(hart.mtvec)
    ensures hart.mcause.ExceptionTrap? ==>
      && (control == Resume <==> Recoverable(hart.mcause.exception))
      && trapFrame.pc == (if control == Resume then old(trapFrame.pc) + BREAKPOINT_WIDTH else old(trapFrame.pc))
      && hart.mie == old(hart.mie)
    ensures hart.mcause.InterruptTrap? ==>
      && control == Resume
      && trapFrame.pc == old(trapFrame.pc)
      && hart.mie == InterruptMie(old(hart.mie), hart.mcause.interrupt)
  {
    var cause := hart.mcause;
    var epc := trapFrame.pc;
    match cause {
      case ExceptionTrap(exception) =>
        control := HandleException(exception, epc, trapFrame);
      case InterruptTrap(interrupt) =>
        HandleInterrupt(hart, interrupt);
        control := Resume;
    }
  }

  /**
    A breakpoint resumes past the two-byte instruction; every other
    exception panics with the frame as it was.
  */
  method HandleException(exception: Exception, epc: Usize, trapFrame: TrapFrame) returns (control: Control)
    requires exception == Breakpoint ==> epc + BREAKPOINT_WIDTH < USIZE_LIMIT
    modifies trapFrame
    ensures control == Resume <==> Recoverable(exception)
    ensures control == Resume ==> trapFrame.pc == epc + BREAKPOINT_WIDTH
    ensures control == Halt ==> trapFrame.pc == old(trapFrame.pc)
  {
    match exception {
      case InstructionMisaligned => control := Halt;
      case InstructionFault => control := Halt;
      case IllegalInstruction => control := Halt;
      case Breakpoint =>
        trapFrame.pc := epc + BREAKPOINT_WIDTH;
        control := Resume;
      case LoadFault => control := Halt;
      case StoreFault => control := Halt;
      case OtherException(_) => control := Halt;
    }
  }

  /** mie after an interrupt is handled: timer and software clear their own enable bit, others leave it. */
  function InterruptMie(mie: Csr, interrupt: Interrupt): (r: Csr)
    ensures interrupt == MachineTimer ==> ClearedOnly(mie, r, MTIE)
    ensures interrupt == MachineSoft ==> ClearedOnly(mie, r, MSIE)
    ensures interrupt != MachineTimer && interrupt != MachineSoft ==> r == mie
  {
    match interrupt
    case MachineTimer => mie - {MTIE}
    case MachineSoft => mie - {MSIE}
    case _ => mie
  }

  /**
    Acknowledges a timer or software interrupt by clearing its enable bit;
    external and unknown interrupts change nothing.
  */
  method HandleInterrupt(hart: Hart, interrupt: Interrupt)
    modifies hart
    ensures hart.mie == InterruptMie(old(hart.mie), interrupt)
    ensures hart.mcause == old(hart.mcause) && hart.mstatus == old(hart.mstatus) && hart.mtvec == old(hart.mtvec)
  {
    match interrupt {
      case MachineTimer => hart.mie := hart.mie - {MTIE};
      case MachineSoft => hart.mie := hart.mie - {MSIE};
      case MachineExternal =>
      case OtherInterrupt(_) =>
    }
  }

  /**
    Points mtvec at the trap handler in direct mode, turns on the global
    machine interrupt enable, and enables the external, timer and software
    sources; nothing else in mstatus or mie changes.
  */
  method Init(hart: Hart, trapHandlerAddress: Usize)
    modifies hart
    ensures hart.mtvec == Mtvec(trapHandlerAddress, Direct)
    ensures SetOnly(old(hart.mstatus), hart.mstatus, {MSTATUS_MIE})
    ensures SetOnly(old(hart.mie), hart.mie, {MEIE, MTIE, MSIE})
    ensures hart.mcause == old(hart.mcause)
  {
    hart.mtvec := Mtvec(trapHandlerAddress, Direct);
    hart.mstatus := hart.mstatus + {MSTATUS_MIE};
    hart.mie := hart.mie + {MEIE};
    hart.mie := hart.mie + {MTIE};
    hart.mie := hart.mie + {MSIE};
  }

  /** After `Init`, a timer interrupt leaves the external and software sources enabled and the timer off. */
  method TimerAfterInitScenario(mie0: Csr)
  {
    var hart := new Hart(InterruptTrap(MachineTimer), mie0, {}, Mtvec(0, Direct));
    var frame := new TrapFrame(0x8000_0000);
    Init(hart, 0x8000_0100);
    var control := TrapHandler(hart, frame);
    assert control == Resume && frame.pc == 0x8000_0000;
    assert MTIE !in hart.mie && MEIE in hart.mie && MSIE in hart.mie;
    assert MSTATUS_MIE in hart.mstatus;
  }
}
