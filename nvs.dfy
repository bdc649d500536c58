/** The persistent configuration store on the flash NVS partition: one
    record under one fixed key, a ready flag that guards every operation,
    first-boot defaults, and an erase that remounts. The flash file system
    is seen only as the record it holds under that key. */
module Nvs {
  import opened Wire
  import opened Bsp

  /** The key the record is stored under. */
  const ConfigId := 1

  // First-boot defaults. The periodic tick is 1000 ms; the identifier and
  // boot count are placeholders, and the lemmas below refer to them only
  // by name.
  const DefaultUniqueId: u16 := 0x0001
  const DefaultPrdTick: u32 := 1000
  const DefaultBootCount: u32 := 0
  const Defaults := ConfigRecord(DefaultUniqueId, DefaultBootCount, DefaultPrdTick)

  /** What the flash driver answers during `bsp_nvs_init`. */
  datatype FlashEnv = FlashEnv(deviceReady: bool, pageInfoOk: bool, mountOk: bool)

  predicate MountSucceeds(env: FlashEnv)
  {
    env.deviceReady && env.pageInfoOk && env.mountOk
  }

  /** `m_nvs_ready` and the record on flash under `ConfigId`. */
  datatype Store = Store(ready: bool, stored: Option<ConfigRecord>)

  datatype InitOut = InitOut(ret: int, store: Store)
  /** Status, the caller's record `*p` afterwards, and the store. */
  datatype WriteOut = WriteOut(ret: int, record: ConfigRecord, store: Store)
  /** As `WriteOut`, plus the live periodic tick afterwards. */
  datatype ReadOut = ReadOut(ret: int, record: ConfigRecord, store: Store, tick: u32)

  /** `bsp_nvs_init`: the ready flag is raised only when every step
      succeeds; a failed step returns -1 and leaves the flag as it was.
      Init returns 0 exactly when the device is ready, the page geometry is
      known and the mount succeeds, and it never touches the stored record. */
  function InitSpec(s: Store, env: FlashEnv): (o: InitOut)
    ensures o.ret == 0 <==> MountSucceeds(env)
    ensures o.ret == 0 || o.ret == -1
    ensures o.store.ready == (MountSucceeds(env) || s.ready) && o.store.stored == s.stored
  {
    if !env.deviceReady then InitOut(-1, s)
    else if !env.pageInfoOk then InitOut(-1, s)
    else if !env.mountOk then InitOut(-1, s)
    else InitOut(0, s.(ready := true))
  }

  /** `bsp_nvs_write`: the record's tick is refreshed from the live tick
      before it is stored; the refresh happens even if the flash write then
      fails. It reports 0 exactly when the store is ready and the flash
      write succeeds; otherwise it reports -1 and the store is unchanged.
      The ready flag is never changed. */
  function WriteSpec(s: Store, p: ConfigRecord, tick: u32, writeOk: bool): (o: WriteOut)
    ensures o.ret == 0 <==> s.ready && writeOk
    ensures o.ret != 0 ==> o.ret == -1 && o.store == s
    ensures o.store.ready == s.ready
  {
    if !s.ready then WriteOut(-1, p, s)
    else
      var q := p.(prdTick := tick);
      if writeOk then WriteOut(0, q, s.(stored := Some(q)))
      else WriteOut(-1, q, s)
  }

  /** `p->boot_count++` on a 32-bit counter: one more, wrapping to 0
      after the largest count. */
  function NextBoot(b: u32): (n: u32)
    ensures b < 0xFFFF_FFFF ==> n == b + 1
    ensures b == 0xFFFF_FFFF ==> n == 0
  {
    (b + 1) % 0x1_0000_0000
  }

  /** `bsp_nvs_read`. A record read back is returned with its boot count
      advanced in memory only, and its tick becomes the live tick. Any
      unsuccessful flash read is taken as a first boot: the defaults are
      returned, made live and written back, and the status is 0 whether
      or not that write succeeds. A read refuses with -1 only when the
      store is not ready, never changes the ready flag, on success makes the
      returned record's tick the live one, and writes nothing to flash
      except the defaults. */
  function ReadSpec(s: Store, p: ConfigRecord, tick: u32, readFault: bool, writeOk: bool): (o: ReadOut)
    ensures o.ret == 0 <==> s.ready
    ensures o.ret != 0 ==> o.ret == -1 && o == ReadOut(-1, p, s, tick)
    ensures o.ret == 0 ==> o.tick == o.record.prdTick
    ensures o.store.ready == s.ready
    ensures o.store != s ==> o.store.stored == Some(Defaults)
  {
    if !s.ready then ReadOut(-1, p, s, tick)
    else if s.stored.Some? && !readFault then
      var r := s.stored.value;
      ReadOut(0, r.(bootCount := NextBoot(r.bootCount)), s, r.prdTick)
    else
      var w := WriteSpec(s, Defaults, Defaults.prdTick, writeOk);
      ReadOut(0, w.record, w.store, Defaults.prdTick)
  }

  /** `bsp_nvs_reset`: erase the partition, drop the ready flag and run
      init again; its status is not looked at. It reports 0 exactly when
      the store is ready and the erase succeeds, and the flash is then
      empty; otherwise it reports -1 and nothing changes. */
  function ResetSpec(s: Store, clearOk: bool, env: FlashEnv): (o: InitOut)
    ensures o.ret == 0 <==> s.ready && clearOk
    ensures o.ret == 0 ==> o.store.stored == None
    ensures o.ret != 0 ==> o.ret == -1 && o.store == s
  {
    if !s.ready then InitOut(-1, s)
    else if !clearOk then InitOut(-1, s)
    else InitOut(0, InitSpec(Store(false, None), env).store)
  }

  /** Before init succeeds, read, write and reset all refuse with -1 and
      change nothing. */
  lemma NotReadyRefuses(s: Store, p: ConfigRecord, tick: u32, readFault: bool, ok: bool, env: FlashEnv)
    requires !s.ready
    ensures ReadSpec(s, p, tick, readFault, ok) == ReadOut(-1, p, s, tick)
    ensures WriteSpec(s, p, tick, ok) == WriteOut(-1, p, s)
    ensures ResetSpec(s, ok, env) == InitOut(-1, s)
  {
  }

  /** A write on a ready store refreshes the tick from the live value and,
      when the flash write succeeds, the store holds exactly the caller's
      updated record. */
  lemma WriteStoresRefreshedRecord(s: Store, p: ConfigRecord, tick: u32, writeOk: bool)
    requires s.ready
    ensures var w := WriteSpec(s, p, tick, writeOk);
      w.record == ConfigRecord(p.uniqueId, p.bootCount, tick) &&
      (writeOk ==> w.ret == 0 && w.store == Store(true, Some(w.record))) &&
      (!writeOk ==> w.ret == -1 && w.store == s)
  {
  }

  /** Reading a stored record returns it with the boot count one higher,
      applies its tick, and leaves flash untouched. */
  lemma ReadExisting(s: Store, p: ConfigRecord, tick: u32, writeOk: bool)
    requires s.ready && s.stored.Some?
    ensures var r := s.stored.value;
      var o := ReadSpec(s, p, tick, false, writeOk);
      o.ret == 0 && o.store == s && o.tick == r.prdTick &&
      o.record.uniqueId == r.uniqueId && o.record.prdTick == r.prdTick &&
      o.record.bootCount == (r.bootCount + 1) % 0x1_0000_0000
  {
  }

  /** Since the increment is never written back, two reads in a row return
      the same boot count. */
  lemma ReadTwiceSameBootCount(s: Store, p1: ConfigRecord, p2: ConfigRecord, tick: u32, ok1: bool, ok2: bool)
    requires s.ready && s.stored.Some?
    ensures var o1 := ReadSpec(s, p1, tick, false, ok1);
      var o2 := ReadSpec(o1.store, p2, o1.tick, false, ok2);
      o2.record.bootCount == o1.record.bootCount && o2.store == s
  {
  }

  /** On an empty store a read returns the defaults, makes the default tick
      live, persists the defaults when the write succeeds, and reports 0
      either way. */
  lemma FirstBootRead(s: Store, p: ConfigRecord, tick: u32, writeOk: bool)
    requires s.ready && s.stored == None
    ensures var o := ReadSpec(s, p, tick, false, writeOk);
      o.ret == 0 && o.record == Defaults && o.tick == DefaultPrdTick &&
      o.store.ready && o.store.stored == (if writeOk then Some(Defaults) else None)
  {
  }

  /** After a first boot whose write succeeded, the next read returns the
      default boot count advanced once, and the default identifier. */
  lemma FirstBootThenRead(s: Store, p1: ConfigRecord, p2: ConfigRecord, tick: u32)
    requires s.ready && s.stored == None
    ensures var o1 := ReadSpec(s, p1, tick, false, true);
      var o2 := ReadSpec(o1.store, p2, o1.tick, false, true);
      o2.ret == 0 && o2.record.bootCount == NextBoot(DefaultBootCount) && o2.record.uniqueId == DefaultUniqueId
  {
    FirstBootRead(s, p1, tick, true);
  }

  /** A flash read error is handled like a missing record: the stored
      configuration is replaced by the defaults. */
  lemma ReadFaultReplacesConfig(s: Store, p: ConfigRecord, tick: u32)
    requires s.ready && s.stored.Some?
    ensures var o := ReadSpec(s, p, tick, true, true);
      o.ret == 0 && o.record == Defaults && o.store.stored == Some(Defaults)
  {
  }

  /** A successful erase empties the store and reports 0 whatever the
      remount does; the store is ready again only if the remount worked. A
      failed erase reports -1 and leaves the store ready. */
  lemma ResetClears(s: Store, clearOk: bool, env: FlashEnv)
    requires s.ready
    ensures var o := ResetSpec(s, clearOk, env);
      (clearOk ==> o.ret == 0 && o.store == Store(MountSucceeds(env), None)) &&
      (!clearOk ==> o.ret == -1 && o.store == s && o.store.ready)
  {
  }

  /** The NVS driver state: `m_nvs_ready` and the flash partition. */
  class NvsStore {
    var ready: bool
    var stored: Option<ConfigRecord>

    function View(): Store
      reads this
    {
      Store(ready, stored)
    }

    /** At start-up the flag is down; flash keeps what it held. */
    constructor (flash: Option<ConfigRecord>)
      ensures View() == Store(false, flash)
    {
      ready := false;
      stored := flash;
    }

    method Init(env: FlashEnv) returns (ret: int)
      modifies this
      ensures InitOut(ret, View()) == InitSpec(old(View()), env)
    {
      if !env.deviceReady {
        return -1;
      }
      if !env.pageInfoOk {
        return -1;
      }
      if !env.mountOk {
        return -1;
      }
      ready := true;
      ret := 0;
    }

    /** `bsp_nvs_write(&g_Bsp.nvs)`, the call the program makes: the record
        written is `g_Bsp.nvs`, which takes the refreshed tick. */
    method Write(board: Board, writeOk: bool) returns (ret: int)
      modifies this, board
      ensures WriteOut(ret, board.nvs, View()) ==
              WriteSpec(old(View()), old(board.nvs), old(board.prdTick), writeOk)
      ensures board.prdTick == old(board.prdTick)
      ensures board.led == old(board.led) && board.imu == old(board.imu)
    {
      if !ready {
        return -1;
      }
      board.nvs := board.nvs.(prdTick := board.prdTick);
      if !writeOk {
        return -1;
      }
      stored := Some(board.nvs);
      ret := 0;
    }

    /** `bsp_nvs_read(&g_Bsp.nvs)`, the call the program makes: the record
        read, or the defaults, land in `g_Bsp.nvs`, and its tick becomes
        the live `g_Bsp.prdTick`. */
    method Read(board: Board, readFault: bool, writeOk: bool) returns (ret: int)
      modifies this, board
      ensures ReadOut(ret, board.nvs, View(), board.prdTick) ==
              ReadSpec(old(View()), old(board.nvs), old(board.prdTick), readFault, writeOk)
      ensures board.led == old(board.led) && board.imu == old(board.imu)
    {
      if !ready {
        return -1;
      }
      if stored.Some? && !readFault {
        board.nvs := stored.value;
        board.prdTick := board.nvs.prdTick;
        board.nvs := board.nvs.(bootCount := NextBoot(board.nvs.bootCount));
      } else {
        board.nvs := Defaults;
        board.prdTick := board.nvs.prdTick;
        var _ := Write(board, writeOk);
      }
      ret := 0;
    }

    method Reset(clearOk: bool, env: FlashEnv) returns (ret: int)
      modifies this
      ensures InitOut(ret, View()) == ResetSpec(old(View()), clearOk, env)
    {
      if !ready {
        return -1;
      }
      if !clearOk {
        return -1;
      }
      stored := None;
      ready := false;
      var _ := Init(env);
      ret := 0;
    }
  }
}
