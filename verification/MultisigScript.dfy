/** Redeem and locking scripts of multisig wallets, as hex text (multisig/utils.py). */
module MultisigScript {
  import opened Prelude

  const PUSH_33 := "21"
  const OP_CHECKMULTISIG := "ae"
  const KEY_LENGTH: nat := 66

  function HexDigit(d: nat): char
    requires d < 16
  {
    if d < 10 then ('0' as int + d) as char else ('a' as int + d - 10) as char
  }

  /** Lower-case hexadecimal without padding, as format(n, 'x') prints it. */
  function ToHex(n: nat): string {
    if n < 16 then [HexDigit(n)] else ToHex(n / 16) + [HexDigit(n % 16)]
  }

  predicate IsHex(s: string) {
    forall c | c in s :: '0' <= c <= '9' || 'a' <= c <= 'f' || 'A' <= c <= 'F'
  }

  predicate IsPubkey(key: string) {
    |key| == KEY_LENGTH && IsHex(key)
  }

  function Pushes(keys: seq<string>): string {
    if keys == [] then "" else PUSH_33 + keys[0] + Pushes(keys[1..])
  }

  function RedeemScript(m: nat, keys: seq<string>): string {
    ToHex(80 + m) + Pushes(keys) + ToHex(80 + |keys|) + OP_CHECKMULTISIG
  }

  lemma {:induction false} PushesAppend(keys: seq<string>, key: string)
    ensures Pushes(keys + [key]) == Pushes(keys) + PUSH_33 + key
  {
    if keys == [] {
      assert [key][1..] == [];
    } else {
      assert (keys + [key])[1..] == keys[1..] + [key];
      PushesAppend(keys[1..], key);
    }
  }

  method CreateRedeemScript(keys: seq<string>, m: nat) returns (script: string)
    ensures script == RedeemScript(m, keys)
  {
    var first := ToHex(80 + m);
    var last := ToHex(80 + |keys|);
    script := first;
    for i := 0 to |keys|
      invariant script == first + Pushes(keys[..i])
    {
      PushesAppend(keys[..i], keys[i]);
      assert keys[..i + 1] == keys[..i] + [keys[i]];
      script := script + (PUSH_33 + keys[i]);
    }
    assert keys[..|keys|] == keys;
    script := script + (last + OP_CHECKMULTISIG);
  }

  /** The number n of the opcode OP_n, n from 1 to 16. */
  function OpNumber(op: string): Option<nat> {
    if |op| != 2 then None
    else if op[0] == '5' && '1' <= op[1] <= '9' then Some(op[1] as int - '0' as int)
    else if op[0] == '5' && 'a' <= op[1] <= 'f' then Some(op[1] as int - 'a' as int + 10)
    else if op[0] == '6' && op[1] == '0' then Some(16)
    else None
  }

  lemma OpcodeDigits(n: nat)
    requires 1 <= n <= 16
    ensures ToHex(80 + n) == if n == 16 then ['6', '0'] else ['5', HexDigit(n)]
  {
    assert (80 + n) / 16 == if n == 16 then 6 else 5;
    assert (80 + n) % 16 == if n == 16 then 0 else n;
    assert ToHex(5) == ['5'] && ToHex(6) == ['6'];
  }

  lemma OpNumberInvertsToHex(n: nat)
    requires 1 <= n <= 16
    ensures |ToHex(80 + n)| == 2 && OpNumber(ToHex(80 + n)) == Some(n) && ToHex(80 + n) != PUSH_33
  {
    OpcodeDigits(n);
    assert PUSH_33[0] == '2';
  }

  lemma ToHexInvertsOpNumber(op: string)
    requires OpNumber(op).Some?
    ensures 1 <= OpNumber(op).value <= 16 && op == ToHex(80 + OpNumber(op).value)
  {
    OpcodeDigits(OpNumber(op).value);
    assert op == [op[0], op[1]];
  }

  // The decoder has its own constants, as the standard gives them: a push of 33 bytes is 0x21, and
  // OP_CHECKMULTISIG is 0xae.

  /** Reads 33-byte pushes off the front; what is left starts with something else. */
  function ReadPushes(s: string): (seq<string>, string)
    decreases |s|
  {
    if |s| >= 2 + KEY_LENGTH && s[..2] == "21" && IsPubkey(s[2..2 + KEY_LENGTH]) then
      var (keys, rest) := ReadPushes(s[2 + KEY_LENGTH..]);
      ([s[2..2 + KEY_LENGTH]] + keys, rest)
    else ([], s)
  }

  /** A parser for the M-of-N form of BIP 11: OP_m, the keys, OP_n, OP_CHECKMULTISIG. */
  function Decode(script: string): Option<(nat, seq<string>)> {
    if |script| < 2 then None
    else
      var m := OpNumber(script[..2]);
      var (keys, rest) := ReadPushes(script[2..]);
      if m.Some? && |rest| == 4 && OpNumber(rest[..2]) == Some(|keys|) && rest[2..] == "ae"
         && m.value <= |keys|
      then Some((m.value, keys))
      else None
  }

  ghost predicate ValidQuorum(m: nat, keys: seq<string>) {
    1 <= m <= |keys| <= 16 && forall key | key in keys :: IsPubkey(key)
  }

  lemma PushSlices(key: string, tail: string)
    requires |key| == KEY_LENGTH
    ensures var s := PUSH_33 + key + tail;
            |s| == 2 + KEY_LENGTH + |tail| && s[..2] == PUSH_33 && s[2..2 + KEY_LENGTH] == key
            && s[2 + KEY_LENGTH..] == tail
  {
  }

  lemma {:induction false} ReadPushesInvertsPushes(keys: seq<string>, rest: string)
    requires forall key | key in keys :: IsPubkey(key)
    requires |rest| < 2 || rest[..2] != PUSH_33
    ensures ReadPushes(Pushes(keys) + rest) == (keys, rest)
  {
    if keys == [] {
      assert Pushes(keys) + rest == rest;
    } else {
      assert IsPubkey(keys[0]);
      var tail := Pushes(keys[1..]) + rest;
      assert Pushes(keys) + rest == PUSH_33 + keys[0] + tail;
      PushSlices(keys[0], tail);
      ReadPushesInvertsPushes(keys[1..], rest);
      assert [keys[0]] + keys[1..] == keys;
    }
  }

  lemma {:induction false} PushesInvertsReadPushes(s: string)
    ensures var (keys, rest) := ReadPushes(s);
            s == Pushes(keys) + rest && forall key | key in keys :: IsPubkey(key)
    decreases |s|
  {
    var (keys, rest) := ReadPushes(s);
    if keys != [] {
      PushesInvertsReadPushes(s[2 + KEY_LENGTH..]);
      assert keys[1..] == ReadPushes(s[2 + KEY_LENGTH..]).0;
      assert s == s[..2] + s[2..2 + KEY_LENGTH] + s[2 + KEY_LENGTH..];
    }
  }

  lemma DecodeOfEncode(m: nat, keys: seq<string>)
    requires ValidQuorum(m, keys)
    ensures Decode(RedeemScript(m, keys)) == Some((m, keys))
  {
    OpNumberInvertsToHex(m);
    OpNumberInvertsToHex(|keys|);
    var last := ToHex(80 + |keys|);
    var rest := last + OP_CHECKMULTISIG;
    var script := RedeemScript(m, keys);
    assert rest[..2] == last && rest[2..] == OP_CHECKMULTISIG;
    ReadPushesInvertsPushes(keys, rest);
    assert script[..2] == ToHex(80 + m);
    assert script[2..] == Pushes(keys) + rest;
  }

  lemma Reassemble(script: string, tail: string, rest: string, first: string, pushes: string, last: string,
                   end: string)
    requires script == first + tail && tail == pushes + rest && rest == last + end
    ensures script == first + pushes + last + end
  {
  }

  lemma EncodeOfDecode(script: string)
    requires Decode(script).Some?
    ensures var (m, keys) := Decode(script).value;
            ValidQuorum(m, keys) && script == RedeemScript(m, keys)
  {
    var (m, keys) := Decode(script).value;
    var tail := script[2..];
    var rest := ReadPushes(tail).1;
    ToHexInvertsOpNumber(script[..2]);
    PushesInvertsReadPushes(tail);
    ToHexInvertsOpNumber(rest[..2]);
    Reassemble(script, tail, rest, script[..2], Pushes(keys), rest[..2], rest[2..]);
  }

  /** Decoding recovers m and the ordered keys, and recognises no other script. */
  lemma DecodeInvertsEncode(script: string, m: nat, keys: seq<string>)
    ensures Decode(script) == Some((m, keys)) <==> ValidQuorum(m, keys) && script == RedeemScript(m, keys)
  {
    if ValidQuorum(m, keys) {
      DecodeOfEncode(m, keys);
    }
    if Decode(script).Some? {
      EncodeOfDecode(script);
    }
  }

  /** Different quorums or key orders never share a script. */
  lemma RedeemScriptIsInjective(m: nat, keys: seq<string>, m': nat, keys': seq<string>)
    requires ValidQuorum(m, keys) && ValidQuorum(m', keys')
    requires RedeemScript(m, keys) == RedeemScript(m', keys')
    ensures m == m' && keys == keys'
  {
    DecodeInvertsEncode(RedeemScript(m, keys), m, keys);
    DecodeInvertsEncode(RedeemScript(m, keys), m', keys');
  }

  /** OP_HASH160, the length in unpadded hex, the bytecode, OP_EQUAL. */
  function GetLockingScript(lockingBytecode: string): string {
    "a9" + ToHex(|lockingBytecode| / 2) + lockingBytecode + "87"
  }

  /** The pay-to-script-hash shape of BIP 16 for a given 20-byte hash. */
  predicate IsPayToScriptHash(script: string, hash: string) {
    |hash| == 40 && |script| == 46 && script[..4] == "a914" && script[4..44] == hash && script[44..] == "87"
  }

  /** On whole bytes the wrapped hash has the P2SH shape exactly when it is 20 bytes long. */
  lemma LockingScriptIsP2SH(hash: string)
    requires |hash| % 2 == 0
    ensures IsPayToScriptHash(GetLockingScript(hash), hash) <==> |hash| == 40
  {
    if |hash| == 40 {
      assert ToHex(20) == ToHex(1) + ['4'];
      assert ToHex(1) == ['1'];
      var script := GetLockingScript(hash);
      assert script == "a914" + hash + "87";
      assert script[44..] == "87";
    }
  }

  /** The whole chain: the script of a quorum, hashed to 20 bytes, is locked as P2SH. */
  lemma QuorumIsLockedAsP2SH(m: nat, keys: seq<string>, hash160: string -> string)
    requires ValidQuorum(m, keys)
    requires forall s :: |hash160(s)| == 40
    ensures IsPayToScriptHash(GetLockingScript(hash160(RedeemScript(m, keys))), hash160(RedeemScript(m, keys)))
  {
    LockingScriptIsP2SH(hash160(RedeemScript(m, keys)));
  }
}
