/**
 * Shared configuration, reward-cycle arithmetic and account set of the stacking scripts
 * (stacking/common.ts), together with the node snapshot they all consume.
 */
module Common {
  import opened Wrappers

  type PosNat = n: nat | n > 0 witness 1

  /** The protocol constants of one network instance, read once from the environment. */
  datatype PoxConfig = PoxConfig(
    epoch30Start: nat,        // STACKS_30_HEIGHT
    epoch25Start: nat,        // STACKS_25_HEIGHT
    prepareLength: nat,       // POX_PREPARE_LENGTH
    rewardLength: PosNat)     // POX_REWARD_LENGTH; dividing a BigInt by 0n throws, so it is positive

  /** What the node reports about the next reward cycle. */
  datatype NextCycle = NextCycle(minThresholdUstx: nat, stackedUstx: nat)

  /** One snapshot of the node's PoX state (the `PoxInfo` the stacking client returns). */
  datatype PoxInfo = PoxInfo(
    contractId: string,
    currentBurnHeight: Option<nat>,   // may be absent: the scripts write `?? 0` for it
    rewardCycleId: nat,
    nextCycle: NextCycle,
    rewardSlots: nat)                 // 0 is falsy

  // ------------------------------------------------------------------------------------------
  // Environment integers: `parseEnvInt`

  /** A JavaScript number produced by `parseInt`: a non-negative integer, or NaN. */
  datatype JsNumber = Num(n: nat) | NaN

  datatype EnvError = MissingRequiredEnvVar(key: string)

  /** The radixes `parseEnvInt` uses. */
  type Radix = r: nat | r == 10 || r == 16 witness 10

  predicate StartsWith(s: string, prefix: string) {
    |prefix| <= |s| && s[..|prefix|] == prefix
  }

  predicate EndsWith(s: string, suffix: string) {
    |suffix| <= |s| && s[|s| - |suffix|..] == suffix
  }

  /** The digit value `parseInt` gives a character: 0-9, then a/A = 10 up to z/Z = 35; 36 for any other. */
  function DigitValue(c: char): (v: nat)
    ensures v <= 36
  {
    if '0' <= c <= '9' then c as nat - '0' as nat
    else if 'a' <= c <= 'z' then c as nat - 'a' as nat + 10
    else if 'A' <= c <= 'Z' then c as nat - 'A' as nat + 10
    else 36
  }

  predicate IsDigit(c: char, radix: Radix) {
    DigitValue(c) < radix
  }

  predicate AllDigits(s: string, radix: Radix) {
    forall i :: 0 <= i < |s| ==> IsDigit(s[i], radix)
  }

  /** The longest prefix of `s` made of digits of `radix`: the part `parseInt` reads. */
  function LeadingDigits(s: string, radix: Radix): (d: string)
    ensures d <= s
    ensures AllDigits(d, radix)
    ensures |d| < |s| ==> !IsDigit(s[|d|], radix)
  {
    if s == [] || !IsDigit(s[0], radix) then [] else [s[0]] + LeadingDigits(s[1..], radix)
  }

  /** The value of a digit string, most significant digit first. */
  function DigitsValue(d: string, radix: Radix): nat
    requires AllDigits(d, radix)
  {
    if d == [] then 0 else DigitsValue(d[..|d| - 1], radix) * radix + DigitValue(d[|d| - 1])
  }

  /**
   * `parseInt(s, radix)` on a string with no leading whitespace or sign: with radix 16 a
   * leading "0x" or "0X" is skipped; then the leading digits are read, and NaN results when
   * there are none.
   */
  function ParseInt(s: string, radix: Radix): (r: JsNumber)
    ensures r.NaN? <==>
      var body := if radix == 16 && (StartsWith(s, "0x") || StartsWith(s, "0X")) then s[2..] else s;
      body == [] || !IsDigit(body[0], radix)
  {
    var body := if radix == 16 && (StartsWith(s, "0x") || StartsWith(s, "0X")) then s[2..] else s;
    var digits := LeadingDigits(body, radix);
    if digits == [] then NaN else Num(DigitsValue(digits, radix))
  }

  /** `parseEnvInt(key, required)`: `Success(None)` is JavaScript's `undefined`; a `Failure` is the thrown error. */
  function ParseEnvInt(env: map<string, string>, key: string, required: bool): (r: Result<Option<JsNumber>, EnvError>)
    ensures key !in env ==> (r.Failure? <==> required)
    ensures r.Failure? ==> r.error == MissingRequiredEnvVar(key)
    ensures r.Success? ==> (r.value.Some? <==> key in env)
    ensures key in env ==> r.Success? && r.value.Some? && r.value.value == ParseInt(env[key], if StartsWith(env[key], "0x") then 16 else 10)
  {
    if key !in env then
      if required then Failure(MissingRequiredEnvVar(key)) else Success(None)
    else
      var value := env[key];
      if StartsWith(value, "0x") then Success(Some(ParseInt(value, 16)))
      else Success(Some(ParseInt(value, 10)))
  }

  /** `parseEnvInt(key) ?? default`. */
  function EnvIntOr(env: map<string, string>, key: string, default: nat): (v: JsNumber)
    ensures key !in env ==> v == Num(default)
    ensures key in env ==> Success(Some(v)) == ParseEnvInt(env, key, false)
  {
    ParseEnvInt(env, key, false).value.GetOr(Num(default))
  }

  /** The character for a digit value below 16, in lower case as `toString(16)` writes it. */
  function DigitChar(v: nat): (c: char)
    requires v < 16
    ensures DigitValue(c) == v
  {
    if v < 10 then ('0' as nat + v) as char else ('a' as nat + v - 10) as char
  }

  /** The canonical rendering of `n` in `radix`, with no leading zeros. */
  function ToDigits(n: nat, radix: Radix): (d: string)
    ensures |d| >= 1 && AllDigits(d, radix)
    ensures n != 0 ==> d[0] != '0'
    decreases n
  {
    if n < radix then [DigitChar(n)] else ToDigits(n / radix, radix) + [DigitChar(n % radix)]
  }

  /** `String(n)`. */
  function DecimalString(n: nat): string {
    ToDigits(n, 10)
  }

  /** `'0x' + n.toString(16)`. */
  function HexString(n: nat): string {
    "0x" + ToDigits(n, 16)
  }

  lemma {:induction false} DigitsRoundTrip(n: nat, radix: Radix)
    ensures DigitsValue(ToDigits(n, radix), radix) == n
    decreases n
  {
    if n >= radix {
      var d := ToDigits(n / radix, radix);
      var e := d + [DigitChar(n % radix)];
      DigitsRoundTrip(n / radix, radix);
      assert e[..|e| - 1] == d;
      assert DigitsValue(e, radix) == (n / radix) * radix + n % radix;
    }
  }

  /** A digit string is read whole. */
  lemma {:induction false} LeadingDigitsOfDigits(s: string, radix: Radix)
    requires AllDigits(s, radix)
    ensures LeadingDigits(s, radix) == s
    decreases |s|
  {
    if s != [] {
      assert IsDigit(s[0], radix);
      assert AllDigits(s[1..], radix) by {
        forall i | 0 <= i < |s[1..]| ensures IsDigit(s[1..][i], radix) {
          assert s[1..][i] == s[i + 1];
        }
      }
      LeadingDigitsOfDigits(s[1..], radix);
      assert [s[0]] + s[1..] == s;
    }
  }

  /** Reading back the decimal rendering of `n` from the environment yields `n`, required or not. */
  lemma ParseEnvIntDecimal(env: map<string, string>, key: string, required: bool, n: nat)
    ensures ParseEnvInt(env[key := DecimalString(n)], key, required) == Success(Some(Num(n)))
  {
    var s := DecimalString(n);
    if |s| >= 2 {
      assert IsDigit(s[1], 10);
      assert s[..2] != "0x";
    }
    assert !StartsWith(s, "0x");
    LeadingDigitsOfDigits(s, 10);
    DigitsRoundTrip(n, 10);
  }

  /** Reading back the `0x` rendering of `n` from the environment yields `n`, required or not. */
  lemma ParseEnvIntHex(env: map<string, string>, key: string, required: bool, n: nat)
    ensures ParseEnvInt(env[key := HexString(n)], key, required) == Success(Some(Num(n)))
  {
    var s := HexString(n);
    assert s[..2] == "0x" && s[2..] == ToDigits(n, 16);
    LeadingDigitsOfDigits(ToDigits(n, 16), 16);
    DigitsRoundTrip(n, 16);
  }

  /**
   * The characters JavaScript's `parseInt` skips or reads as a sign before the digits: the
   * ECMAScript white space and line terminators, `+` and `-`.
   */
  predicate IsSpaceOrSign(c: char) {
    || c == '+' || c == '-'
    || c == ' ' || c == '\t' || c == '\n' || c == '\r' || c == '\U{000B}' || c == '\U{000C}'
    || c == '\U{00A0}' || c == '\U{1680}' || '\U{2000}' <= c <= '\U{200A}' || c == '\U{2028}' || c == '\U{2029}'
    || c == '\U{202F}' || c == '\U{205F}' || c == '\U{3000}' || c == '\U{FEFF}'
  }

  /**
   * A value whose first character is neither a decimal digit nor white space or a sign reads
   * as NaN, not as 0: `parseInt("abc", 10)`. Such a value never starts with `0x`, so it is read
   * in base 10.
   */
  lemma ParseEnvIntNaN(env: map<string, string>, key: string, required: bool)
    requires key in env && env[key] != []
    requires !IsDigit(env[key][0], 10) && !IsSpaceOrSign(env[key][0])
    ensures ParseEnvInt(env, key, required) == Success(Some(NaN))
  {
    assert !StartsWith(env[key], "0x");
  }

  // ------------------------------------------------------------------------------------------
  // Reward-cycle clock

  /** `burnBlockToRewardCycle`: BigInt division by the cycle length, plus one. */
  function RewardCycle(cfg: PoxConfig, burnHeight: nat): (cycle: nat)
    ensures cycle >= 1
  {
    burnHeight / cfg.rewardLength + 1
  }

  /** Cycle c covers the heights [(c-1)*L, c*L). */
  lemma RewardCycleBounds(cfg: PoxConfig, burnHeight: nat)
    ensures var c := RewardCycle(cfg, burnHeight);
      (c - 1) * cfg.rewardLength <= burnHeight < c * cfg.rewardLength
  {
  }

  /** `EPOCH_30_START_CYCLE`: the cycle of the Epoch 3.0 activation height. */
  function Epoch30StartCycle(cfg: PoxConfig): (cycle: nat)
    ensures cycle >= 1
  {
    RewardCycle(cfg, cfg.epoch30Start)
  }

  lemma MulMonotone(a: int, b: int, m: nat)
    requires a <= b
    ensures a * m <= b * m
  {
  }

  /** Every height of the interval [k*L, (k+1)*L) is in cycle k + 1, and height 0 is in cycle 1. */
  lemma RewardCycleOnInterval(cfg: PoxConfig, k: nat, h: nat)
    requires k * cfg.rewardLength <= h < (k + 1) * cfg.rewardLength
    ensures RewardCycle(cfg, h) == k + 1
  {
    var c := RewardCycle(cfg, h);
    RewardCycleBounds(cfg, h);
    if c - 1 < k {
      MulMonotone(c, k, cfg.rewardLength);
    } else if c - 1 > k {
      MulMonotone(k + 1, c - 1, cfg.rewardLength);
    }
  }

  lemma RewardCycleMonotone(cfg: PoxConfig, h1: nat, h2: nat)
    requires h1 <= h2
    ensures RewardCycle(cfg, h1) <= RewardCycle(cfg, h2)
  {
    var c1, c2 := RewardCycle(cfg, h1), RewardCycle(cfg, h2);
    RewardCycleBounds(cfg, h1);
    RewardCycleBounds(cfg, h2);
    if c1 > c2 {
      MulMonotone(c2, c1 - 1, cfg.rewardLength);
    }
  }

  /** As written: the cycle length minus the offset in the cycle must be below the prepare length. */
  function IsPreparePhase(cfg: PoxConfig, burnHeight: nat): (b: bool)
    ensures b <==> burnHeight % cfg.rewardLength > cfg.rewardLength - cfg.prepareLength
    ensures b ==> cfg.prepareLength >= 2
    ensures burnHeight % cfg.rewardLength == 0 ==> (b <==> cfg.rewardLength < cfg.prepareLength)
  {
    cfg.rewardLength - burnHeight % cfg.rewardLength < cfg.prepareLength
  }

  /** Entering the prepare phase: the new height is in it and the old one is not, so they differ in offset. */
  function DidCrossPreparePhase(cfg: PoxConfig, lastBurnHeight: nat, newBurnHeight: nat): (b: bool)
    ensures b ==> IsPreparePhase(cfg, newBurnHeight)
    ensures b ==> lastBurnHeight % cfg.rewardLength != newBurnHeight % cfg.rewardLength
  {
    IsPreparePhase(cfg, newBurnHeight) && !IsPreparePhase(cfg, lastBurnHeight)
  }

  /** The offset of a height within its cycle, given the cycle. */
  lemma OffsetInCycle(cfg: PoxConfig, k: nat, h: nat)
    requires k * cfg.rewardLength <= h < (k + 1) * cfg.rewardLength
    ensures h % cfg.rewardLength == h - k * cfg.rewardLength
  {
    RewardCycleOnInterval(cfg, k, h);
    assert h / cfg.rewardLength == k;
  }

  /**
   * With P <= L, the prepare phase of cycle k + 1 is exactly its last P - 1 heights:
   * the heights above (k+1)*L - P. Its first height, k*L, is never in it.
   */
  lemma PreparePhaseInCycle(cfg: PoxConfig, k: nat, h: nat)
    requires cfg.prepareLength <= cfg.rewardLength
    requires k * cfg.rewardLength <= h < (k + 1) * cfg.rewardLength
    ensures IsPreparePhase(cfg, h) <==> h > (k + 1) * cfg.rewardLength - cfg.prepareLength
    ensures h == k * cfg.rewardLength ==> !IsPreparePhase(cfg, h)
  {
    OffsetInCycle(cfg, k, h);
  }

  lemma PreparePhasePeriodic(cfg: PoxConfig, h: nat)
    ensures IsPreparePhase(cfg, h + cfg.rewardLength) == IsPreparePhase(cfg, h)
  {
    var L := cfg.rewardLength;
    var k := RewardCycle(cfg, h) - 1;
    RewardCycleBounds(cfg, h);
    assert (k + 1) * L == k * L + L && (k + 2) * L == (k + 1) * L + L;
    OffsetInCycle(cfg, k, h);
    OffsetInCycle(cfg, k + 1, h + L);
  }

  /** Staying at one height never crosses into the prepare phase. */
  lemma NoCrossingWithoutMoving(cfg: PoxConfig, h: nat)
    ensures !DidCrossPreparePhase(cfg, h, h)
  {
  }

  /**
   * Moving up one height crosses into the prepare phase exactly when the new height is at
   * offset L - P + 1 in its cycle, for P <= L (never, for P <= 1).
   */
  lemma CrossingOneStep(cfg: PoxConfig, h: nat)
    requires cfg.prepareLength <= cfg.rewardLength
    ensures DidCrossPreparePhase(cfg, h, h + 1) <==>
              (h + 1) % cfg.rewardLength == cfg.rewardLength - cfg.prepareLength + 1
  {
    var L := cfg.rewardLength;
    var k := h / L;
    OffsetInCycle(cfg, k, h);
    if h + 1 < (k + 1) * L {
      OffsetInCycle(cfg, k, h + 1);
    } else {
      OffsetInCycle(cfg, k + 1, h + 1);
    }
  }

  /** The values for cycle length 20 and prepare length 5. */
  lemma ClockExamples()
    ensures var cfg := PoxConfig(0, 0, 5, 20);
      && RewardCycle(cfg, 0) == 1 && RewardCycle(cfg, 19) == 1 && RewardCycle(cfg, 20) == 2
      && !IsPreparePhase(cfg, 14) && !IsPreparePhase(cfg, 15)
      && IsPreparePhase(cfg, 16) && IsPreparePhase(cfg, 19) && !IsPreparePhase(cfg, 20)
  {
  }

  // ------------------------------------------------------------------------------------------
  // Accounts

  /** The key and address derivations of the Stacks libraries, which this model does not define. */
  datatype KeyDerivation = KeyDerivation(
    publicKeyOf: string -> string,      // getPublicKeyFromPrivate
    stxAddressOf: string -> string,     // getAddressFromPrivateKey(_, Testnet)
    btcAddressOf: string -> string,     // publicKeyToBtcAddress
    signerKeyOf: string -> string)      // createStacksPrivateKey(_).data

  datatype Account = Account(
    privKey: string,
    pubKey: string,
    stxAddress: string,
    btcAddr: string,
    signerPrivKey: string,
    signerPubKey: string,
    targetSlots: nat,
    index: nat)

  function MakeAccount(privKey: string, index: nat, kd: KeyDerivation): Account {
    var pubKey := kd.publicKeyOf(privKey);
    var signerPrivKey := kd.signerKeyOf(privKey);
    Account(privKey, pubKey, kd.stxAddressOf(privKey), kd.btcAddressOf(pubKey),
            signerPrivKey, kd.publicKeyOf(signerPrivKey), index + 1, index)
  }

  /** The account set built from the configured key list; list position decides the slot weight. */
  function MakeAccounts(keys: seq<string>, kd: KeyDerivation): (accounts: seq<Account>)
    ensures |accounts| == |keys|
    ensures forall i :: 0 <= i < |keys| ==>
      && accounts[i].privKey == keys[i]
      && accounts[i].index == i
      && accounts[i].targetSlots == i + 1
      && accounts[i].btcAddr == kd.btcAddressOf(kd.publicKeyOf(keys[i]))
      && accounts[i].signerPubKey == kd.publicKeyOf(accounts[i].signerPrivKey)
  {
    seq(|keys|, i requires 0 <= i < |keys| => MakeAccount(keys[i], i, kd))
  }

  /** Slot weights are at least one and strictly increase along the key list. */
  lemma TargetSlotsIncrease(keys: seq<string>, kd: KeyDerivation, i: nat, j: nat)
    requires i < j < |keys|
    ensures 1 <= MakeAccounts(keys, kd)[i].targetSlots < MakeAccounts(keys, kd)[j].targetSlots
  {
  }

  function Pow2(k: nat): (p: nat)
    ensures p >= 1
  {
    if k == 0 then 1 else 2 * Pow2(k - 1)
  }

  lemma {:induction false} Pow2Add(a: nat, b: nat)
    ensures Pow2(a + b) == Pow2(a) * Pow2(b)
    decreases a
  {
    if a > 0 {
      Pow2Add(a - 1, b);
    }
  }

  /** `MAX_U128`, also exported as `maxAmount`: the largest unsigned 128-bit value. */
  const MAX_U128: nat := 0xffff_ffff_ffff_ffff_ffff_ffff_ffff_ffff

  /** `MAX_U128` is `2n ** 128n - 1n`. */
  lemma MaxU128IsPow2()
    ensures MAX_U128 == Pow2(128) - 1
  {
    assert Pow2(4) == 0x10;
    Pow2Add(4, 4);
    assert Pow2(8) == 0x100;
    Pow2Add(8, 8);
    assert Pow2(16) == 0x1_0000;
    Pow2Add(16, 16);
    assert Pow2(32) == 0x1_0000_0000;
    Pow2Add(32, 32);
    assert Pow2(64) == 0x1_0000_0000_0000_0000;
    Pow2Add(64, 64);
  }
}
