/**
 * The mode scheduler: a four-state timing machine driven by the elapsed-cycle
 * count the CPU reports. Each call adds the count to `mclock`; when the
 * current mode's threshold is reached the clock is reset to 0 (not reduced by
 * the threshold) and exactly one transition happens, so cycles beyond the
 * threshold are dropped.
 */
module Timing {

  datatype Mode = HBlank | VBlank | Oam | Vram

  /** The two mode bits the status register reports. */
  function ModeBits(m: Mode): int
  {
    match m
    case HBlank => 0
    case VBlank => 1
    case Oam => 2
    case Vram => 3
  }

  /** The four LCD-status interrupt enables (`hBlankInt`, `vBlankInt`,
      `OAMInt`, `CoinInt`). */
  datatype StatEnables = StatEnables(hBlank: bool, vBlank: bool, oam: bool, coin: bool)

  /** Mode, cycle counter and current line. */
  datatype Timer = Timer(mode: Mode, mclock: nat, line: int)

  /** The five interrupt sources that share the CPU's interrupt-flag
      register, in bit order: V-blank is bit 0 (0x01), LCD status bit 1
      (0x02). The register is modelled as the set of sources whose bit is set,
      so `flags |= 0x02` is `flags + {LcdStatReq}`. */
  datatype Interrupt = VBlankReq | LcdStatReq | TimerReq | SerialReq | JoypadReq

  /** What one call produces: the new timer, the interrupt-flag register after
      the ORs, whether a scanline was rendered and whether a frame was handed
      to the display. */
  datatype Tick = Tick(timer: Timer, intFlags: set<Interrupt>, render: bool, frameReady: bool)

  /** Cycles a mode lasts. */
  function Threshold(m: Mode): nat
  {
    match m
    case Oam => 20
    case Vram => 43
    case HBlank => 51
    case VBlank => 114
  }

  /** The state `initGPU` sets: HBLANK, clock 0, line 0. */
  const InitialTimer: Timer := Timer(HBlank, 0, 0)

  /** The line register is a byte: `line++` wraps at 256. */
  function NextLine(line: int): int
  {
    (line + 1) % 256
  }

  /** `if (cond) flags |= bit`. */
  function OrIf(flags: set<Interrupt>, cond: bool, i: Interrupt): set<Interrupt>
  {
    if cond then flags + {i} else flags
  }

  /** One call of `stepGPU` with `dc` elapsed cycles. */
  function StepTimer(t: Timer, dc: nat, en: StatEnables, lineComp: int, flags: set<Interrupt>): Tick
  {
    var clock := t.mclock + dc;
    if clock < Threshold(t.mode) then
      Tick(t.(mclock := clock), flags, false, false)
    else
      match t.mode
      case Oam =>
        Tick(Timer(Vram, 0, t.line), flags, false, false)
      case Vram =>
        Tick(Timer(HBlank, 0, t.line), OrIf(flags, en.hBlank, LcdStatReq), true, false)
      case HBlank =>
        HBlankExpiry(NextLine(t.line), en, lineComp, flags)
      case VBlank =>
        var line := NextLine(t.line);
        if line > 153 then
          Tick(Timer(Oam, 0, 0), OrIf(flags, en.oam, LcdStatReq), false, false)
        else
          Tick(Timer(VBlank, 0, line), flags, false, false)
  }

  /** The end of HBLANK, once the line has moved to `line`: the coincidence
      check, then VBLANK at line 144 (with the V-blank interrupt and the frame
      handed over) or OAM otherwise. */
  function HBlankExpiry(line: int, en: StatEnables, lineComp: int, flags: set<Interrupt>): Tick
  {
    var f := OrIf(flags, en.coin && line == lineComp, LcdStatReq);
    if line == 144 then
      Tick(Timer(VBlank, 0, line), OrIf(f + {VBlankReq}, en.vBlank, LcdStatReq), false, true)
    else
      Tick(Timer(Oam, 0, line), OrIf(f, en.oam, LcdStatReq), false, false)
  }

  /** The reachable-state invariant: the line never passes 153, and outside
      VBLANK it is a visible line. */
  ghost predicate Inv(t: Timer)
  {
    0 <= t.line <= 153 && (t.mode != VBlank ==> t.line <= 143)
  }

  /** Whether the step entered mode m. */
  predicate Entered(t: Timer, t': Timer, m: Mode)
  {
    t.mode != m && t'.mode == m
  }

  /** The STAT enable that belongs to entering mode m. */
  function EnableFor(en: StatEnables, m: Mode): bool
  {
    match m
    case HBlank => en.hBlank
    case VBlank => en.vBlank
    case Oam => en.oam
    case Vram => false
  }

  lemma InitialTimerInv()
    ensures Inv(InitialTimer)
  {
  }

  /** Below the threshold only the clock moves; at or past it the clock is reset
      to 0 whatever the surplus was. */
  lemma StepClock(t: Timer, dc: nat, en: StatEnables, lineComp: int, flags: set<Interrupt>)
    ensures var k := StepTimer(t, dc, en, lineComp, flags);
      if t.mclock + dc < Threshold(t.mode)
      then k.timer == t.(mclock := t.mclock + dc) && k.intFlags == flags && !k.render && !k.frameReady
      else k.timer.mclock == 0 && k.timer != t
  {
  }

  /** A step makes at most one transition, along the mode cycle
      OAM -> VRAM -> HBLANK -> (OAM | VBLANK), VBLANK -> (VBLANK | OAM);
      the line moves only when HBLANK or VBLANK expires. */
  lemma StepFollowsCycle(t: Timer, dc: nat, en: StatEnables, lineComp: int, flags: set<Interrupt>)
    requires Inv(t) && t.mclock + dc >= Threshold(t.mode)
    ensures var t' := StepTimer(t, dc, en, lineComp, flags).timer;
      match t.mode
      case Oam => t'.mode == Vram && t'.line == t.line
      case Vram => t'.mode == HBlank && t'.line == t.line
      case HBlank => t'.line == t.line + 1 && (t'.mode == VBlank <==> t'.line == 144) &&
                     (t'.mode == Oam <==> t'.line != 144)
      case VBlank => if t.line == 153 then t'.mode == Oam && t'.line == 0
                     else t'.mode == VBlank && t'.line == t.line + 1
  {
  }

  /** Every step keeps the reachable-state invariant. */
  lemma StepKeepsInv(t: Timer, dc: nat, en: StatEnables, lineComp: int, flags: set<Interrupt>)
    requires Inv(t)
    ensures Inv(StepTimer(t, dc, en, lineComp, flags).timer)
  {
  }

  /** `after` keeps every request of `before` and adds at most the V-blank
      and LCD-status requests: in register terms, only bits 0 and 1 are set
      and no bit is cleared. */
  predicate Raises(before: set<Interrupt>, after: set<Interrupt>)
  {
    before <= after && after - before <= {VBlankReq, LcdStatReq}
  }

  /** The interrupt-flag register only gains bits, and only bits 0 and 1. */
  lemma StepOnlyRaises(t: Timer, dc: nat, en: StatEnables, lineComp: int, flags: set<Interrupt>)
    ensures Raises(flags, StepTimer(t, dc, en, lineComp, flags).intFlags)
  {
  }

  /** The V-blank interrupt is raised, and the frame handed over, exactly when
      the step enters VBLANK; a scanline is rendered exactly when it enters
      HBLANK. */
  lemma StepEvents(t: Timer, dc: nat, en: StatEnables, lineComp: int, flags: set<Interrupt>)
    ensures var k := StepTimer(t, dc, en, lineComp, flags);
      (VBlankReq in k.intFlags <==> VBlankReq in flags || Entered(t, k.timer, VBlank)) &&
      (k.frameReady <==> Entered(t, k.timer, VBlank)) &&
      (k.render <==> Entered(t, k.timer, HBlank))
  {
  }

  /** The LCD-status interrupt is raised exactly when the step enters a mode
      whose enable is on, or when an HBLANK expiry moves the line onto the
      compare line with the coincidence enable on. Line increments inside
      VBLANK never test coincidence. */
  lemma StepLcdStat(t: Timer, dc: nat, en: StatEnables, lineComp: int, flags: set<Interrupt>)
    ensures var k := StepTimer(t, dc, en, lineComp, flags);
      LcdStatReq in k.intFlags <==>
        LcdStatReq in flags ||
        (t.mode != k.timer.mode && EnableFor(en, k.timer.mode)) ||
        (t.mode == HBlank && k.timer.mode != HBlank && en.coin && k.timer.line == lineComp)
  {
  }

  /** The other three interrupt sources are left exactly as they were. */
  lemma StepKeepsOtherSources(t: Timer, dc: nat, en: StatEnables, lineComp: int, flags: set<Interrupt>, i: Interrupt)
    requires i != VBlankReq && i != LcdStatReq
    ensures i in StepTimer(t, dc, en, lineComp, flags).intFlags <==> i in flags
  {
  }

  /** Cycles past the threshold are lost: 63 cycles from the start of OAM
      (enough for OAM and VRAM together) leave the machine at the start of
      VRAM, one transition later, where two calls of 20 and 43 cycles would
      have reached HBLANK. */
  lemma StepDropsSurplus(en: StatEnables, lineComp: int, flags: set<Interrupt>)
    ensures StepTimer(Timer(Oam, 0, 5), 63, en, lineComp, flags).timer == Timer(Vram, 0, 5)
    ensures var k := StepTimer(Timer(Oam, 0, 5), 20, en, lineComp, flags);
      StepTimer(k.timer, 43, en, lineComp, k.intFlags).timer == Timer(HBlank, 0, 5)
  {
  }
}
