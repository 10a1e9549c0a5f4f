/**
 * Kubernetes quantity strings as the controller reads them: CPU in cores, memory in MiB.
 *
 * Turning the numeric part into a number (Python's `float`) is the parameter `num`,
 * which yields `None` where `float` raises; only the suffix split and the scaling are modelled.
 */
module Quantity {

  import opened Wrappers

  predicate EndsWith(s: string, suffix: string) {
    |suffix| <= |s| && s[|s| - |suffix|..] == suffix
  }

  /** `x` multiplied by `factor`, failure passed through. */
  function Times(x: Option<real>, factor: real): Option<real> {
    match x
    case Some(v) => Some(v * factor)
    case None => None
  }

  /** `x` divided by `divisor`, failure passed through. */
  function Over(x: Option<real>, divisor: real): Option<real>
    requires divisor != 0.0
  {
    match x
    case Some(v) => Some(v / divisor)
    case None => None
  }

  /**
   * A CPU quantity in cores: with a trailing `m` the number counts thousandths of a core, so the
   * result is a thousandth of it; otherwise the number is cores.
   */
  function ParseCpuRequest(cpu: string, num: string -> Option<real>): (cores: Option<real>)
    ensures EndsWith(cpu, "m") ==>
      (cores.Some? <==> num(cpu[..|cpu| - 1]).Some?) &&
      (cores.Some? ==> cores.value * 1000.0 == num(cpu[..|cpu| - 1]).value)
    ensures !EndsWith(cpu, "m") ==> cores == num(cpu)
  {
    if EndsWith(cpu, "m") then Over(num(cpu[..|cpu| - 1]), 1000.0)
    else num(cpu)
  }

  /** Whether the quantity ends in one of the binary suffixes Ki, Mi, Gi, Ti. */
  predicate HasBinarySuffix(memory: string) {
    EndsWith(memory, "Ki") || EndsWith(memory, "Mi") || EndsWith(memory, "Gi") || EndsWith(memory, "Ti")
  }

  /** The text of the number: the quantity without its binary suffix. */
  function NumberPart(memory: string): string {
    if HasBinarySuffix(memory) then memory[..|memory| - 2] else memory
  }

  /** How many bytes one unit of the quantity's suffix stands for; a bare number counts bytes. */
  function BytesPerUnit(memory: string): real {
    if EndsWith(memory, "Ki") then 1024.0
    else if EndsWith(memory, "Mi") then 1024.0 * 1024.0
    else if EndsWith(memory, "Gi") then 1024.0 * 1024.0 * 1024.0
    else if EndsWith(memory, "Ti") then 1024.0 * 1024.0 * 1024.0 * 1024.0
    else 1.0
  }

  /**
   * A memory quantity in MiB: binary suffixes Ki, Mi, Gi, Ti, and plain bytes otherwise. The result
   * is the byte count the quantity denotes, divided by 2^20, and fails exactly when the number does.
   */
  function ParseMemoryRequest(memory: string, num: string -> Option<real>): (mib: Option<real>)
    ensures mib.Some? <==> num(NumberPart(memory)).Some?
    ensures mib.Some? ==> mib.value * (1024.0 * 1024.0) == num(NumberPart(memory)).value * BytesPerUnit(memory)
  {
    if EndsWith(memory, "Ki") then Over(num(memory[..|memory| - 2]), 1024.0)
    else if EndsWith(memory, "Mi") then num(memory[..|memory| - 2])
    else if EndsWith(memory, "Gi") then Times(num(memory[..|memory| - 2]), 1024.0)
    else if EndsWith(memory, "Ti") then Times(Times(num(memory[..|memory| - 2]), 1024.0), 1024.0)
    else Over(num(memory), 1024.0 * 1024.0)
  }

  lemma SuffixSplit(n: string, suffix: string)
    ensures (n + suffix)[..|n|] == n
    ensures (n + suffix)[|n|..] == suffix
  {
  }

  /** A millicore quantity is the number divided by 1000; any other CPU string is the number itself. */
  lemma CpuMillicores(n: string, s: string, num: string -> Option<real>)
    requires !EndsWith(s, "m")
    ensures ParseCpuRequest(n + "m", num) == Over(num(n), 1000.0)
    ensures ParseCpuRequest(s, num) == num(s)
  {
    SuffixSplit(n, "m");
  }

  /** Each binary memory suffix is 1024 times the one below it: Ti = 1024 Gi, Gi = 1024 Mi, Mi = 1024 Ki. */
  lemma MemorySuffixesScale(n: string, num: string -> Option<real>)
    ensures ParseMemoryRequest(n + "Ti", num) == Times(ParseMemoryRequest(n + "Gi", num), 1024.0)
    ensures ParseMemoryRequest(n + "Gi", num) == Times(ParseMemoryRequest(n + "Mi", num), 1024.0)
    ensures ParseMemoryRequest(n + "Mi", num) == Times(ParseMemoryRequest(n + "Ki", num), 1024.0)
    ensures ParseMemoryRequest(n + "Mi", num) == num(n)
  {
    SuffixSplit(n, "Ki");
    SuffixSplit(n, "Mi");
    SuffixSplit(n, "Gi");
    SuffixSplit(n, "Ti");
    assert "Ti" != "Ki" && "Ti" != "Mi" && "Ti" != "Gi";
    assert "Gi" != "Ki" && "Gi" != "Mi";
    assert "Mi" != "Ki";
    match num(n)
    case None =>
    case Some(v) =>
      assert v / 1024.0 * 1024.0 == v;
  }

  /** A memory string without a binary suffix is a byte count: the number divided by 1024 twice. */
  lemma MemoryPlainBytes(s: string, num: string -> Option<real>)
    requires !EndsWith(s, "Ki") && !EndsWith(s, "Mi") && !EndsWith(s, "Gi") && !EndsWith(s, "Ti")
    ensures ParseMemoryRequest(s, num) == Over(Over(num(s), 1024.0), 1024.0)
  {
    match num(s)
    case None =>
    case Some(v) =>
      assert v / (1024.0 * 1024.0) == v / 1024.0 / 1024.0;
  }

  /** Parsing fails exactly when the numeric part after the suffix is stripped fails. */
  lemma MemoryFailsOnlyOnNumber(n: string, suffix: string, num: string -> Option<real>)
    requires suffix in {"Ki", "Mi", "Gi", "Ti"}
    ensures ParseMemoryRequest(n + suffix, num).None? <==> num(n).None?
  {
    SuffixSplit(n, suffix);
  }
}
