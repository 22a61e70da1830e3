/**
 The PostgreSQL settings the operator derives from memory, CPUs, endpoints and volume size, and the
 printer of memory settings.  Sizes are in kB; int64 never overflows here because every input is a
 byte count divided by at least 1024 and the largest factor is 12.
 */
module PgTune {
  import opened Wrappers

  const MB := 1024
  const GB := 1024 * 1024

  function Min(a: int, b: int): int { if a <= b then a else b }
  function Max(a: int, b: int): int { if a <= b then b else a }

  /** Go's integer division by a positive number truncates toward zero. */
  function Quo(a: int, b: int): int
    requires b > 0
  {
    if a >= 0 then a / b else -(-a / b)
  }

  // ---------------------------------------------------------------- the settings

  function MaxConnections(endpoints: nat): nat {
    3 * 20 + endpoints * 80 + 3
  }

  function SharedBuffers(memory: int): int { Quo(memory, 4) }

  function EffectiveCache(memory: int): int { Quo(memory * 3, 4) }

  function MaintenanceWorkMem(memory: int): int { Min(Quo(memory, 16), 8 * GB) }

  function WalBuffers(memory: int): int {
    var wal := Quo(3 * SharedBuffers(memory), 100);
    Max(if wal > 14 * MB then 16 * MB else wal, 32)
  }

  /** max_worker_processes where it is set, PostgreSQL's default of 8 elsewhere. */
  function Workers(cpu: int): int { if cpu >= 4 then cpu else 8 }

  /** The sessions a work_mem is granted to, three times each. */
  function Shares(cpu: int, endpoints: nat): (n: int)
    ensures n > 0
  {
    (MaxConnections(endpoints) + Workers(cpu)) * 3
  }

  function RawWorkMem(memory: int, cpu: int, endpoints: nat): int {
    Quo(memory - SharedBuffers(memory), Shares(cpu, endpoints))
  }

  function WorkMem(memory: int, cpu: int, endpoints: nat): int {
    Max(RawWorkMem(memory, cpu, endpoints), 4 * MB)
  }

  /** 12% of the volume between 1GB and 16GB, or 6GB when its size does not parse. */
  function WalKeep(volumeBytes: Option<int>): int {
    match volumeBytes
    case None => 6 * GB
    case Some(bytes) => Max(Min(Quo(Quo(bytes, 1024 * 1024) * 12, 100), 16 * 1024), 1024) * MB
  }

  function PerGather(cpu: int): int { Min(Quo(cpu + 1, 2), 4) }

  /** calculatePGConfig. */
  function Config(memory: int, cpu: int, endpoints: nat, volumeBytes: Option<int>): map<string, string> {
    var values := Values(memory, cpu, endpoints, volumeBytes);
    if cpu >= 4 then Table(NAMES, values) else Table(NAMES[..7], values[..7])
  }

  /** The calculated settings, in the order of their names, as numbers. */
  function Numbers(memory: int, cpu: int, endpoints: nat, volumeBytes: Option<int>): (numbers: seq<int>)
    ensures |numbers| == |NAMES|
  {
    [SharedBuffers(memory), EffectiveCache(memory), MaintenanceWorkMem(memory), WalBuffers(memory),
     MaxConnections(endpoints), WorkMem(memory, cpu, endpoints), WalKeep(volumeBytes),
     cpu, cpu, PerGather(cpu), PerGather(cpu)]
  }

  /** Of the settings, max_connections and those about workers are counts, the others sizes. */
  predicate IsSize(i: nat) {
    i < 7 && i != 4
  }

  /** The same, as printed. */
  function Values(memory: int, cpu: int, endpoints: nat, volumeBytes: Option<int>): (values: seq<string>)
    ensures |values| == |NAMES|
  {
    var numbers := Numbers(memory, cpu, endpoints, volumeBytes);
    seq(|NAMES|, i requires 0 <= i < |NAMES| => if IsSize(i) then FormatKB(numbers[i]) else Decimal(numbers[i]))
  }

  /** The names of the calculated settings; the last four are set only from four CPUs on. */
  const NAMES := ["shared_buffers", "effective_cache_size", "maintenance_work_mem", "wal_buffers", "max_connections",
                  "work_mem", "wal_keep_size", "max_worker_processes", "max_parallel_workers",
                  "max_parallel_workers_per_gather", "max_parallel_maintenance_workers"]

  /** The map that assigns each value to its key, in order. */
  function Table(keys: seq<string>, values: seq<string>): map<string, string>
    requires |keys| == |values|
  {
    if keys == [] then map[]
    else
      var n := |keys| - 1;
      Table(keys[..n], values[..n])[keys[n] := values[n]]
  }

  // ---------------------------------------------------------------- printing

  function Digits(n: nat): (s: string)
    ensures |s| > 0 && forall i :: 0 <= i < |s| ==> '0' <= s[i] <= '9'
  {
    if n < 10 then [('0' as int + n) as char] else Digits(n / 10) + [('0' as int + n % 10) as char]
  }

  /** `%d`. */
  function Decimal(n: int): string {
    if n < 0 then "-" + Digits(-n) else Digits(n)
  }

  /** formatBytesKB. */
  function FormatKB(kb: int): string {
    if kb >= GB && kb % GB == 0 then Decimal(kb / GB) + "GB"
    else if kb >= MB && kb % MB == 0 then Decimal(kb / MB) + "MB"
    else Decimal(kb) + "kB"
  }

  /** Reading the settings back, as PostgreSQL does: digits with an optional sign, then a unit. */
  function ParseDigits(s: string): Option<nat> {
    if s == [] then None
    else
      var last := s[|s| - 1];
      if !('0' <= last <= '9') then None
      else if |s| == 1 then Some(last as int - '0' as int)
      else
        match ParseDigits(s[..|s| - 1])
        case None => None
        case Some(front) => Some(front * 10 + (last as int - '0' as int))
  }

  function ParseDecimal(s: string): Option<int> {
    var negative := s != [] && s[0] == '-';
    match ParseDigits(if negative then s[1..] else s)
    case None => None
    case Some(n) => Some(if negative then -(n as int) else n)
  }

  function Unit(s: string): Option<int> {
    if s == "kB" then Some(1) else if s == "MB" then Some(MB) else if s == "GB" then Some(GB) else None
  }

  function ParseKB(s: string): Option<int> {
    if |s| < 2 || Unit(s[|s| - 2..]).None? then None
    else
      match ParseDecimal(s[..|s| - 2])
      case None => None
      case Some(n) => Some(n * Unit(s[|s| - 2..]).value)
  }

  lemma {:induction false} DigitsRoundTrip(n: nat)
    ensures ParseDigits(Digits(n)) == Some(n)
  {
    var s := Digits(n);
    if n >= 10 {
      DigitsRoundTrip(n / 10);
      assert s[..|s| - 1] == Digits(n / 10);
    }
  }

  lemma SignedRoundTrip(digits: string, n: nat)
    requires digits != [] && '0' <= digits[0] <= '9' && ParseDigits(digits) == Some(n)
    ensures ParseDecimal(digits) == Some(n) && ParseDecimal("-" + digits) == Some(-(n as int))
  {
    assert ("-" + digits)[1..] == digits;
  }

  lemma DecimalRoundTrip(n: int)
    ensures ParseDecimal(Decimal(n)) == Some(n)
  {
    var m: nat := if n < 0 then -n else n;
    DigitsRoundTrip(m);
    SignedRoundTrip(Digits(m), m);
  }

  lemma UnitRoundTrip(front: string, count: int, unit: string)
    requires |unit| == 2 && Unit(unit).Some? && ParseDecimal(front) == Some(count)
    ensures ParseKB(front + unit) == Some(count * Unit(unit).value)
  {
    var s := front + unit;
    assert s[..|s| - 2] == front && s[|s| - 2..] == unit;
  }

  /** The unit formatBytesKB chooses: the largest one that divides, and that is not larger. */
  function UnitFor(kb: int): string {
    if kb >= GB && kb % GB == 0 then "GB" else if kb >= MB && kb % MB == 0 then "MB" else "kB"
  }

  lemma UnitForDivides(kb: int)
    ensures |UnitFor(kb)| == 2 && Unit(UnitFor(kb)).Some?
    ensures kb / Unit(UnitFor(kb)).value * Unit(UnitFor(kb)).value == kb
    ensures FormatKB(kb) == Decimal(kb / Unit(UnitFor(kb)).value) + UnitFor(kb)
  {
  }

  /** Every printed memory setting reads back as the same number of kB. */
  lemma FormatRoundTrip(kb: int)
    ensures ParseKB(FormatKB(kb)) == Some(kb)
  {
    var unit := UnitFor(kb);
    UnitForDivides(kb);
    var count := kb / Unit(unit).value;
    DecimalRoundTrip(count);
    UnitRoundTrip(Decimal(count), count, unit);
  }

  /** The printer is injective: two settings print alike only if they are equal. */
  lemma FormatInjective(a: int, b: int)
    requires FormatKB(a) == FormatKB(b)
    ensures a == b
  {
    FormatRoundTrip(a);
    FormatRoundTrip(b);
  }

  // ---------------------------------------------------------------- arithmetic

  lemma MulLe(b: int, x: int, y: int)
    requires b >= 0 && x <= y
    ensures b * x <= b * y
  {
  }

  /** Quotients are ordered like their dividends, and against their divisors. */
  lemma QuotientOrder(b: int, b': int, x: int, y: int, a: int)
    requires 0 < b <= b' && x >= 0 && b' * x <= a < b * y + b
    ensures x <= y
  {
    if x > y {
      MulLe(x, b, b');
      MulLe(b, y + 1, x);
    }
  }

  lemma DivBounds(a: int, b: int)
    requires a >= 0 && b > 0
    ensures a / b >= 0 && b * (a / b) <= a < b * (a / b) + b
  {
    assert a == b * (a / b) + a % b;
  }

  lemma QuoMonotone(a: int, a': int, b: int)
    requires b > 0 && a <= a'
    ensures Quo(a, b) <= Quo(a', b)
  {
    var n, n' := if a >= 0 then a else -a, if a' >= 0 then a' else -a';
    DivBounds(n, b);
    DivBounds(n', b);
    if a >= 0 {
      QuotientOrder(b, b, n / b, n' / b, a');
    } else if a' < 0 {
      QuotientOrder(b, b, n' / b, n / b, n);
    }
  }

  lemma QuoDivisor(a: int, b: int, b': int)
    requires 0 < b <= b' && a >= 0
    ensures Quo(a, b') <= Quo(a, b)
  {
    DivBounds(a, b);
    DivBounds(a, b');
    QuotientOrder(b, b', a / b', a / b, a);
  }

  // ---------------------------------------------------------------- what the settings promise

  /**
   shared_buffers and every grant of work_mem fit in the memory exactly when the 4MB floor is not
   what set work_mem.
   */
  lemma MemoryBound(memory: int, cpu: int, endpoints: nat)
    ensures SharedBuffers(memory) + Shares(cpu, endpoints) * WorkMem(memory, cpu, endpoints) <= memory
            <==> RawWorkMem(memory, cpu, endpoints) >= 4 * MB
  {
    GrantBound(memory - SharedBuffers(memory), Shares(cpu, endpoints), 4 * MB);
  }

  /** `n` grants of the floored quotient fit in `left` exactly when the floor did not apply. */
  lemma GrantBound(left: int, n: int, floor: int)
    requires n > 0 && floor > 0
    ensures n * Max(Quo(left, n), floor) <= left <==> Quo(left, n) >= floor
  {
    if left >= 0 {
      DivBounds(left, n);
      if Quo(left, n) < floor { MulLe(n, Quo(left, n) + 1, floor); }
    } else {
      DivBounds(-left, n);
      MulLe(n, 0, floor);
    }
  }

  /**
   The fractions: a quarter and three quarters of the memory, a sixteenth up to 8GB, and 3% of the
   shared buffers between 32kB and 16MB that never stops just short of the top.
   */
  lemma Fractions(memory: nat)
    ensures 4 * SharedBuffers(memory) <= memory < 4 * SharedBuffers(memory) + 4
    ensures 4 * EffectiveCache(memory) <= 3 * memory < 4 * EffectiveCache(memory) + 4
    ensures var m := MaintenanceWorkMem(memory);
            16 * m <= memory && m <= 8 * GB && (m == 8 * GB || memory < 16 * m + 16)
    ensures var wal, shared := WalBuffers(memory), SharedBuffers(memory);
            && 32 <= wal <= 16 * MB && !(14 * MB < wal < 16 * MB)
            && (32 < wal < 16 * MB ==> 100 * wal <= 3 * shared < 100 * wal + 100)
            && (wal == 16 * MB ==> 3 * shared >= 100 * (14 * MB + 1))
    ensures SharedBuffers(memory) + EffectiveCache(memory) <= memory
  {
  }

  function Sum(xs: seq<nat>): nat {
    if xs == [] then 0 else xs[0] + Sum(xs[1..])
  }

  predicate AtMost(xs: seq<nat>, each: nat) {
    forall i :: 0 <= i < |xs| ==> xs[i] <= each
  }

  predicate Exactly(xs: seq<nat>, each: nat) {
    forall i :: 0 <= i < |xs| ==> xs[i] == each
  }

  lemma Distribute(each: nat, n: nat)
    ensures each * (n + 1) == each + each * n
  {
  }

  lemma {:induction false} SumBound(xs: seq<nat>, each: nat)
    requires AtMost(xs, each)
    ensures Sum(xs) <= each * |xs|
  {
    if xs == [] {
    } else {
      assert AtMost(xs[1..], each);
      SumBound(xs[1..], each);
      Distribute(each, |xs[1..]|);
    }
  }

  lemma {:induction false} SumExact(xs: seq<nat>, each: nat)
    requires Exactly(xs, each)
    ensures Sum(xs) == each * |xs|
  {
    if xs == [] {
    } else {
      assert Exactly(xs[1..], each);
      SumExact(xs[1..], each);
      Distribute(each, |xs[1..]|);
    }
  }

  /** What the core processes and the endpoint pods use of the connections, beside those kept for the superuser. */
  predicate WithinPools(core: seq<nat>, pods: seq<nat>, endpoints: nat) {
    |core| == 3 && |pods| <= endpoints && AtMost(core, 20) && AtMost(pods, 80)
  }

  predicate FullPools(core: seq<nat>, pods: seq<nat>, endpoints: nat) {
    |core| == 3 && |pods| == endpoints && Exactly(core, 20) && Exactly(pods, 80)
  }

  /** max_connections always leaves the three superuser connections free, and no smaller value would. */
  lemma ConnectionsSuffice(core: seq<nat>, pods: seq<nat>, endpoints: nat)
    requires WithinPools(core, pods, endpoints)
    ensures Sum(core) + Sum(pods) + 3 <= MaxConnections(endpoints)
    ensures FullPools(core, pods, endpoints) ==> Sum(core) + Sum(pods) + 3 == MaxConnections(endpoints)
  {
    SumBound(core, 20);
    SumBound(pods, 80);
    if FullPools(core, pods, endpoints) {
      SumExact(core, 20);
      SumExact(pods, 80);
    }
  }

  /** More memory never lowers a memory setting. */
  lemma MoreMemory(memory: int, memory': int, cpu: int, endpoints: nat)
    requires memory <= memory'
    ensures SharedBuffers(memory) <= SharedBuffers(memory') && EffectiveCache(memory) <= EffectiveCache(memory')
    ensures MaintenanceWorkMem(memory) <= MaintenanceWorkMem(memory') && WalBuffers(memory) <= WalBuffers(memory')
    ensures WorkMem(memory, cpu, endpoints) <= WorkMem(memory', cpu, endpoints)
  {
    QuoMonotone(memory, memory', 4);
    QuoMonotone(memory * 3, memory' * 3, 4);
    QuoMonotone(memory, memory', 16);
    QuoMonotone(3 * SharedBuffers(memory), 3 * SharedBuffers(memory'), 100);
    LeftMonotone(memory, memory');
    QuoMonotone(memory - SharedBuffers(memory), memory' - SharedBuffers(memory'), Shares(cpu, endpoints));
  }

  lemma LeftMonotone(memory: int, memory': int)
    requires memory <= memory'
    ensures memory - SharedBuffers(memory) <= memory' - SharedBuffers(memory')
  {
  }

  /** More endpoints never raise work_mem, and neither do more CPUs once the parallel settings apply. */
  lemma MoreSessions(memory: int, cpu: int, cpu': int, endpoints: nat, endpoints': nat)
    requires endpoints <= endpoints' && Workers(cpu) <= Workers(cpu')
    ensures WorkMem(memory, cpu', endpoints') <= WorkMem(memory, cpu, endpoints)
  {
    var left := memory - SharedBuffers(memory);
    if left >= 0 {
      QuoDivisor(left, Shares(cpu, endpoints), Shares(cpu', endpoints'));
    } else {
      DivBounds(-left, Shares(cpu, endpoints));
      DivBounds(-left, Shares(cpu', endpoints'));
    }
  }

  /**
   The step in between: from below four CPUs to four or more, eight default workers become as many
   as there are CPUs.  Up to seven CPUs that never lowers work_mem, and raises it exactly when the
   new quotient is above the old one and above the floor; from eight on it never raises it.
   */
  lemma CpuThreshold(memory: nat, cpu: int, cpu': int, endpoints: nat)
    requires cpu < 4 <= cpu'
    ensures cpu' <= 7 ==> WorkMem(memory, cpu', endpoints) >= WorkMem(memory, cpu, endpoints)
    ensures cpu' >= 8 ==> WorkMem(memory, cpu', endpoints) <= WorkMem(memory, cpu, endpoints)
    ensures WorkMem(memory, cpu', endpoints) > WorkMem(memory, cpu, endpoints) <==>
            RawWorkMem(memory, cpu', endpoints) > Max(RawWorkMem(memory, cpu, endpoints), 4 * MB)
  {
    var left := memory - SharedBuffers(memory);
    assert left >= 0;
    if cpu' <= 7 {
      QuoDivisor(left, Shares(cpu', endpoints), Shares(cpu, endpoints));
    } else {
      QuoDivisor(left, Shares(cpu, endpoints), Shares(cpu', endpoints));
    }
  }

  /** In terms of the memory alone, the raise is strict only where the floor is passed. */
  lemma RaiseNeedsMemory(memory: nat, cpu: int, cpu': int, endpoints: nat)
    requires cpu < 4 <= cpu' && WorkMem(memory, cpu', endpoints) > WorkMem(memory, cpu, endpoints)
    ensures cpu' <= 7 && memory - SharedBuffers(memory) >= Shares(cpu', endpoints) * (4 * MB + 1)
  {
    CpuThreshold(memory, cpu, cpu', endpoints);
    var left, n := memory - SharedBuffers(memory), Shares(cpu', endpoints);
    assert left >= 0;
    DivBounds(left, n);
    MulLe(n, 4 * MB + 1, left / n);
  }

  /** wal_keep_size stays within 1GB and 16GB and grows with the volume. */
  lemma WalKeepRange(bytes: int, bytes': int)
    requires bytes <= bytes'
    ensures GB <= WalKeep(Some(bytes)) <= WalKeep(Some(bytes')) <= 16 * GB
  {
    QuoMonotone(bytes, bytes', 1024 * 1024);
    QuoMonotone(Quo(bytes, 1024 * 1024) * 12, Quo(bytes', 1024 * 1024) * 12, 100);
  }

  // ---------------------------------------------------------------- which setting is which

  /** The setting `key` is there as `text`. */
  predicate Has(config: map<string, string>, key: string, text: string) {
    key in config && config[key] == text
  }

  predicate AllDiffer(keys: seq<string>) {
    forall i, j :: 0 <= i < j < |keys| ==> keys[i] != keys[j]
  }

  lemma {:induction false} TableAt(keys: seq<string>, values: seq<string>, i: nat)
    requires |keys| == |values| && AllDiffer(keys) && i < |keys|
    ensures Has(Table(keys, values), keys[i], values[i])
    ensures forall k :: k in Table(keys, values) ==> k in keys
  {
    var n := |keys| - 1;
    if n > 0 { TableAt(keys[..n], values[..n], if i < n then i else 0); }
    if i < n { assert keys[..n][i] == keys[i] && values[..n][i] == values[i] && keys[i] != keys[n]; }
  }

  /** The names differ: mostly in length, the four of 20 characters in a letter. */
  lemma NamesDiffer()
    ensures AllDiffer(NAMES) && AllDiffer(NAMES[..7])
  {
    var lengths := [14, 20, 20, 11, 15, 8, 13, 20, 20, 31, 32];
    forall i | 0 <= i < |NAMES| ensures |NAMES[i]| == lengths[i] { }
    assert NAMES[1][0] == 'e' && NAMES[2][2] == 'i' && NAMES[7][2] == 'x' && NAMES[8][2] == 'x';
    assert NAMES[2][0] == 'm' && NAMES[7][0] == 'm' && NAMES[8][0] == 'm' && NAMES[7][4] == 'w' && NAMES[8][4] == 'p';
    forall i, j | 0 <= i < j < |NAMES| ensures NAMES[i] != NAMES[j] {
      if lengths[i] == lengths[j] { assert i in {1, 2, 7} && j in {2, 7, 8}; }
    }
  }

  /** Every calculated setting under its name; the last four are there only from four CPUs on. */
  lemma ConfigAt(memory: int, cpu: int, endpoints: nat, volume: Option<int>, i: nat)
    requires i < |NAMES|
    ensures var config := Config(memory, cpu, endpoints, volume);
            if i < 7 || cpu >= 4 then Has(config, NAMES[i], Values(memory, cpu, endpoints, volume)[i])
            else NAMES[i] !in config
  {
    var values := Values(memory, cpu, endpoints, volume);
    NamesDiffer();
    if cpu >= 4 {
      TableAt(NAMES, values, i);
    } else {
      TableAt(NAMES[..7], values[..7], if i < 7 then i else 0);
    }
  }

  /** The setting is there and PostgreSQL reads it as `n`: kilobytes for a size, the number for a count. */
  predicate Reads(config: map<string, string>, key: string, size: bool, n: int) {
    key in config && (if size then ParseKB(config[key]) else ParseDecimal(config[key])) == Some(n)
  }

  lemma ConfigReads(memory: int, cpu: int, endpoints: nat, volume: Option<int>, i: nat)
    requires i < |NAMES| && (i < 7 || cpu >= 4)
    ensures Reads(Config(memory, cpu, endpoints, volume), NAMES[i], IsSize(i),
                  Numbers(memory, cpu, endpoints, volume)[i])
  {
    var n := Numbers(memory, cpu, endpoints, volume)[i];
    ConfigAt(memory, cpu, endpoints, volume, i);
    FormatRoundTrip(n);
    DecimalRoundTrip(n);
  }

  /** The sizes by name; Fractions says what the first four come to. */
  lemma SharedBuffersRead(memory: nat, cpu: int, endpoints: nat, volume: Option<int>)
    ensures Reads(Config(memory, cpu, endpoints, volume), "shared_buffers", true, SharedBuffers(memory))
  {
    ConfigReads(memory, cpu, endpoints, volume, 0);
    assert NAMES[0] == "shared_buffers";
  }

  /** Three quarters of the memory. */
  lemma EffectiveCacheRead(memory: nat, cpu: int, endpoints: nat, volume: Option<int>)
    ensures Reads(Config(memory, cpu, endpoints, volume), "effective_cache_size", true, EffectiveCache(memory))
  {
    ConfigReads(memory, cpu, endpoints, volume, 1);
    assert NAMES[1] == "effective_cache_size";
  }

  /** A sixteenth, up to 8GB. */
  lemma MaintenanceRead(memory: nat, cpu: int, endpoints: nat, volume: Option<int>)
    ensures Reads(Config(memory, cpu, endpoints, volume), "maintenance_work_mem", true, MaintenanceWorkMem(memory))
  {
    ConfigReads(memory, cpu, endpoints, volume, 2);
    assert NAMES[2] == "maintenance_work_mem";
  }

  /** 3% of the shared buffers, within bounds. */
  lemma WalBuffersRead(memory: nat, cpu: int, endpoints: nat, volume: Option<int>)
    ensures Reads(Config(memory, cpu, endpoints, volume), "wal_buffers", true, WalBuffers(memory))
  {
    ConfigReads(memory, cpu, endpoints, volume, 3);
    assert NAMES[3] == "wal_buffers";
  }

  /** WorkMemIs says what it comes to. */
  lemma WorkMemRead(memory: nat, cpu: int, endpoints: nat, volume: Option<int>)
    ensures Reads(Config(memory, cpu, endpoints, volume), "work_mem", true, WorkMem(memory, cpu, endpoints))
  {
    ConfigReads(memory, cpu, endpoints, volume, 5);
    assert NAMES[5] == "work_mem";
  }

  /** WalKeepIs says what it comes to. */
  lemma WalKeepRead(memory: nat, cpu: int, endpoints: nat, volume: Option<int>)
    ensures Reads(Config(memory, cpu, endpoints, volume), "wal_keep_size", true, WalKeep(volume))
  {
    ConfigReads(memory, cpu, endpoints, volume, 6);
    assert NAMES[6] == "wal_keep_size";
  }

  /** The counts by name; with fewer than four CPUs the parallel settings are left alone. */
  lemma CountSettings(memory: nat, cpu: int, endpoints: nat, volume: Option<int>)
    ensures Reads(Config(memory, cpu, endpoints, volume), "max_connections", false, 63 + 80 * endpoints)
    ensures var config := Config(memory, cpu, endpoints, volume);
            cpu >= 4 ==>
              && Reads(config, "max_worker_processes", false, cpu) && Reads(config, "max_parallel_workers", false, cpu)
              && Reads(config, "max_parallel_workers_per_gather", false, Min((cpu + 1) / 2, 4))
              && Reads(config, "max_parallel_maintenance_workers", false, Min((cpu + 1) / 2, 4))
    ensures cpu < 4 ==> forall i :: 7 <= i < |NAMES| ==> NAMES[i] !in Config(memory, cpu, endpoints, volume)
  {
    forall i | 4 <= i < |NAMES| && (i == 4 || cpu >= 4)
      ensures Reads(Config(memory, cpu, endpoints, volume), NAMES[i], IsSize(i),
                    Numbers(memory, cpu, endpoints, volume)[i])
    {
      ConfigReads(memory, cpu, endpoints, volume, i);
    }
    forall i | 7 <= i < |NAMES| && cpu < 4 ensures NAMES[i] !in Config(memory, cpu, endpoints, volume) {
      ConfigAt(memory, cpu, endpoints, volume, i);
    }
    assert NAMES[4] == "max_connections" && NAMES[7] == "max_worker_processes" && NAMES[8] == "max_parallel_workers";
    assert NAMES[9] == "max_parallel_workers_per_gather" && NAMES[10] == "max_parallel_maintenance_workers";
  }

  /** What is left besides the shared buffers, for three grants to every connection and worker, or 4MB. */
  lemma WorkMemIs(memory: nat, cpu: int, endpoints: nat)
    ensures var sessions := 63 + 80 * endpoints + if cpu >= 4 then cpu else 8;
            WorkMem(memory, cpu, endpoints) == Max((memory - memory / 4) / (3 * sessions), 4 * 1024)
  {
    assert Shares(cpu, endpoints) == 3 * (63 + 80 * endpoints + if cpu >= 4 then cpu else 8);
  }

  /** 12% of the whole megabytes of the volume, between 1GB and 16GB; 6GB when its size is unknown. */
  lemma WalKeepIs(bytes: nat)
    ensures WalKeep(None) == 6 * 1024 * 1024
    ensures WalKeep(Some(bytes)) % 1024 == 0
    ensures var mb, volume := WalKeep(Some(bytes)) / 1024, bytes / (1024 * 1024);
            && 1024 <= mb <= 16 * 1024
            && (mb > 1024 ==> 100 * mb <= 12 * volume) && (mb < 16 * 1024 ==> 12 * volume < 100 * mb + 100)
  {
  }
}
