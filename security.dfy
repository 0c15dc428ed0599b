/** The security configuration builder: turns a container security policy into the parameters of a
    container-creation call, and validates and parses Docker memory limits such as "256m". */
module Security {
  import opened Wrappers
  import Digits

  datatype SecurityError = InvalidMemoryLimit(limit: string)

  /** The security policy of the pool configuration. `cpuQuotaMicros` is the CPU quota already
      converted to microseconds per 100ms period (the source's `int(cpu_quota * 100000)`). */
  datatype SecurityPolicy = SecurityPolicy(
    networkMode: string,
    memoryLimit: string,
    cpuQuotaMicros: int,
    pidsLimit: int,
    tmpfsSize: string,
    securityOpt: seq<string>,
    capDrop: seq<string>,
    capAdd: seq<string>)

  /** The keyword arguments handed to the container runtime's create call. */
  datatype ContainerConfig = ContainerConfig(
    image: string,
    name: string,
    detach: bool,
    stdinOpen: bool,
    tty: bool,
    networkMode: string,
    memLimit: string,
    cpuQuota: int,
    cpuPeriod: int,
    pidsLimit: int,
    tmpfs: map<string, string>,
    securityOpt: seq<string>,
    capDrop: seq<string>,
    capAdd: seq<string>,
    labels: map<string, string>)

  const CpuPeriod: int := 100000
  const Kibi: nat := 1024

  const RoleLabel: string := "sandtrap.role"
  const VersionLabel: string := "sandtrap.version"
  const CreatedLabel: string := "sandtrap.created"
  const SessionLabel: string := "sandtrap.session_id"

  predicate IsUnit(c: char) {
    c in "kmgKMG"
  }

  /** The pattern `^\d+[kmgKMG]$`: one or more ASCII digits followed by exactly one unit letter. */
  predicate IsValidMemoryLimit(limit: string) {
    |limit| >= 2 && Digits.AllDigits(limit[..|limit| - 1]) && IsUnit(limit[|limit| - 1])
  }

  /** Bytes per unit; the unit letter is compared case-insensitively. */
  function Multiplier(unit: char): (m: nat)
    requires IsUnit(unit)
    ensures m in {Kibi, Kibi * Kibi, Kibi * Kibi * Kibi}
  {
    if unit in "kK" then Kibi
    else if unit in "mM" then Kibi * Kibi
    else Kibi * Kibi * Kibi
  }

  /** Memory limit in bytes; a string the validator rejects is a ValueError. */
  function ParseMemoryLimit(limit: string): (r: Result<nat, SecurityError>)
    ensures r.Err? <==> !IsValidMemoryLimit(limit)
    ensures r.Err? ==> r.error == InvalidMemoryLimit(limit)
    ensures r.Ok? ==> r.value % Kibi == 0
  {
    if !IsValidMemoryLimit(limit) then Err(InvalidMemoryLimit(limit))
    else
      var number := Digits.DigitsValue(limit[..|limit| - 1]);
      Ok(number * Multiplier(limit[|limit| - 1]))
  }

  /** The canonical spelling of `number` units, e.g. `256` and 'm' give "256m". */
  function FormatMemoryLimit(number: nat, unit: char): string
    requires IsUnit(unit)
  {
    Digits.NatToString(number) + [unit]
  }

  /** Every canonically spelled limit is valid and parses to `number` times the unit's size. */
  lemma ParseFormatRoundTrip(number: nat, unit: char)
    requires IsUnit(unit)
    ensures ParseMemoryLimit(FormatMemoryLimit(number, unit)) == Ok(number * Multiplier(unit))
  {
    var s := FormatMemoryLimit(number, unit);
    assert s[..|s| - 1] == Digits.NatToString(number);
    Digits.NatToStringRoundTrip(number);
  }

  /** Any valid limit, leading zeros included ("0256m"), parses to the value of its digits
      times the unit's size. */
  lemma ParseDigitsThenUnit(digits: string, unit: char)
    requires |digits| >= 1 && Digits.AllDigits(digits) && IsUnit(unit)
    ensures ParseMemoryLimit(digits + [unit]) == Ok(Digits.DigitsValue(digits) * Multiplier(unit))
  {
    var s := digits + [unit];
    assert s[..|s| - 1] == digits && s[|s| - 1] == unit;
  }

  /** `int()` ignores leading zeros, so a zero in front of a limit does not change its size. */
  lemma LeadingZeroIgnored(digits: string, unit: char)
    requires |digits| >= 1 && Digits.AllDigits(digits) && IsUnit(unit)
    ensures ParseMemoryLimit("0" + digits + [unit]) == ParseMemoryLimit(digits + [unit])
  {
    var z := "0" + digits;
    assert z + [unit] == "0" + digits + [unit];
    Digits.LeadingZero(digits);
    ParseDigitsThenUnit(z, unit);
    ParseDigitsThenUnit(digits, unit);
  }

  lemma SameSizeSameLimit(digits: string, a: char, b: char)
    requires |digits| >= 1 && Digits.AllDigits(digits)
    requires IsUnit(a) && IsUnit(b) && Multiplier(a) == Multiplier(b)
    ensures ParseMemoryLimit(digits + [a]) == ParseMemoryLimit(digits + [b])
  {
    var sa, sb := digits + [a], digits + [b];
    assert sa[..|sa| - 1] == digits && sa[|sa| - 1] == a;
    assert sb[..|sb| - 1] == digits && sb[|sb| - 1] == b;
    assert IsValidMemoryLimit(sa) <==> IsValidMemoryLimit(sb);
  }

  /** Upper- and lower-case unit letters mean the same size. */
  lemma ParseIsCaseInsensitive(digits: string)
    requires |digits| >= 1 && Digits.AllDigits(digits)
    ensures ParseMemoryLimit(digits + "k") == ParseMemoryLimit(digits + "K")
    ensures ParseMemoryLimit(digits + "m") == ParseMemoryLimit(digits + "M")
    ensures ParseMemoryLimit(digits + "g") == ParseMemoryLimit(digits + "G")
  {
    SameSizeSameLimit(digits, 'k', 'K');
    SameSizeSameLimit(digits, 'm', 'M');
    SameSizeSameLimit(digits, 'g', 'G');
  }

  /** The documented examples of the validator. */
  lemma MemoryLimitExamples()
    ensures IsValidMemoryLimit("256m") && IsValidMemoryLimit("1G")
    ensures !IsValidMemoryLimit("") && !IsValidMemoryLimit("256")
    ensures !IsValidMemoryLimit("256mb") && !IsValidMemoryLimit("-1m") && !IsValidMemoryLimit("0.5g")
    ensures ParseMemoryLimit("256m") == Ok(256 * Kibi * Kibi)
  {
    assert "256m"[..3] == "256";
    assert Digits.DigitsValue("256") == 256 by {
      assert "256"[..2] == "25" && "25"[..1] == "2" && "2"[..0] == "";
    }
    assert !Digits.IsDigit("256mb"[3]);
    assert !Digits.IsDigit("-1m"[0]);
    assert !Digits.IsDigit("0.5g"[1]);
  }

  /** Python's `s[:n]`. */
  function Take(s: string, n: nat): (r: string)
    ensures |r| == if |s| < n then |s| else n
    ensures r <= s
  {
    if |s| < n then s else s[..n]
  }

  const NamePrefix: string := "sandtrap-target-"

  /** `sandtrap-target-{id}-{timestamp}`, where id is the first 8 characters of the session id when
      one is given (a non-empty string) and of a fresh UUID text otherwise. */
  function GenerateContainerName(sessionId: Option<string>, uuid: string, stamp: string): (name: string)
    ensures |NamePrefix| + 1 + |stamp| <= |name| <= |NamePrefix| + 8 + 1 + |stamp|
    ensures NamePrefix <= name
    ensures name[|name| - |stamp| - 1..] == "-" + stamp
    ensures sessionId.Some? && sessionId.value != "" ==>
              name == NamePrefix + Take(sessionId.value, 8) + "-" + stamp
    ensures sessionId.None? || sessionId.value == "" ==> name == NamePrefix + Take(uuid, 8) + "-" + stamp
    ensures sessionId.Some? && |sessionId.value| >= 8 ==>
              |name| >= |NamePrefix| + 8 && name[|NamePrefix|..|NamePrefix| + 8] == sessionId.value[..8]
  {
    var idPart := if sessionId.Some? && sessionId.value != "" then Take(sessionId.value, 8) else Take(uuid, 8);
    NamePrefix + idPart + "-" + stamp
  }

  /** Docker creation parameters for a policy, or a ValueError raised before any parameter is
      built when the memory limit is malformed. */
  function BuildContainerConfig(policy: SecurityPolicy, image: string, name: string,
                                sessionId: Option<string>, createdAt: string): (r: Result<ContainerConfig, SecurityError>)
    ensures r.Ok? <==> IsValidMemoryLimit(policy.memoryLimit)
    ensures r.Err? ==> r.error == InvalidMemoryLimit(policy.memoryLimit)
    ensures r.Ok? ==>
      var c := r.value;
      && c.image == image && c.name == name
      && c.networkMode == policy.networkMode && c.memLimit == policy.memoryLimit
      && c.pidsLimit == policy.pidsLimit && c.securityOpt == policy.securityOpt
      && c.capDrop == policy.capDrop && c.capAdd == policy.capAdd
      && c.cpuQuota == policy.cpuQuotaMicros
      && c.detach && c.stdinOpen && !c.tty && c.cpuPeriod == 100000
      && c.tmpfs == map["/tmp" := "size=" + policy.tmpfsSize]
      && RoleLabel in c.labels && c.labels[RoleLabel] == "target"
      && (SessionLabel in c.labels <==> sessionId.Some? && sessionId.value != "")
      && (SessionLabel in c.labels ==> c.labels[SessionLabel] == sessionId.value)
  {
    if !IsValidMemoryLimit(policy.memoryLimit) then Err(InvalidMemoryLimit(policy.memoryLimit))
    else
      var base := map[RoleLabel := "target", VersionLabel := "mvp", CreatedLabel := createdAt];
      var labels := if sessionId.Some? && sessionId.value != "" then base[SessionLabel := sessionId.value] else base;
      Ok(ContainerConfig(
        image := image,
        name := name,
        detach := true,
        stdinOpen := true,
        tty := false,
        networkMode := policy.networkMode,
        memLimit := policy.memoryLimit,
        cpuQuota := policy.cpuQuotaMicros,
        cpuPeriod := CpuPeriod,
        pidsLimit := policy.pidsLimit,
        tmpfs := map["/tmp" := "size=" + policy.tmpfsSize],
        securityOpt := policy.securityOpt,
        capDrop := policy.capDrop,
        capAdd := policy.capAdd,
        labels := labels))
  }

  /** The labels of a built configuration are exactly the role, the version and the creation
      time, plus the session id when a non-empty one is given. */
  lemma BuiltLabels(policy: SecurityPolicy, image: string, name: string,
                    sessionId: Option<string>, createdAt: string)
    requires BuildContainerConfig(policy, image, name, sessionId, createdAt).Ok?
    ensures var labels := BuildContainerConfig(policy, image, name, sessionId, createdAt).value.labels;
            && labels.Keys == {RoleLabel, VersionLabel, CreatedLabel}
                              + (if sessionId.Some? && sessionId.value != "" then {SessionLabel} else {})
            && labels[RoleLabel] == "target" && labels[VersionLabel] == "mvp"
            && labels[CreatedLabel] == createdAt
  {
  }

  /** A configuration that was built always carries a memory limit the parser accepts. */
  lemma BuiltMemoryLimitParses(policy: SecurityPolicy, image: string, name: string,
                               sessionId: Option<string>, createdAt: string)
    requires BuildContainerConfig(policy, image, name, sessionId, createdAt).Ok?
    ensures ParseMemoryLimit(BuildContainerConfig(policy, image, name, sessionId, createdAt).value.memLimit).Ok?
  {
  }
}
