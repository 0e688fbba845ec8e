/** Scripts that do not do what one would read off their source, at particular inputs. */
module ScriptWitness {
  import opened Bytes
  import opened Script
  import opened ScriptVm
  import opened ScriptBuild
  import opened ScriptPredicates
  import opened ScriptMultisig

  /** A 3-of-7 script can be written and paid to, and no witness ever spends it. */
  lemma ThreeOfSevenIsLost(e: Env, derive: Bytes -> Bytes, account: Bytes, keys: seq<Bytes>, script: Bytes, args: seq<Bytes>)
    requires |keys| == 7 && ItemsFit(keys) && script == ScriptOf(MultisigCode(3, keys)) && |script| <= MAX_SCRIPT_BYTES
    requires derive(script) == account
    ensures Eval(e, derive, account, script, args).Err?
  {
    MultisigSpends(e, derive, account, 3, keys, script, args);
  }

  /** A contract that is to be refunded from height 2^31 + 1 on is refunded at 2^31. */
  lemma RefundedEarly(e: Env, derive: Bytes -> Bytes, account: Bytes, hash: Bytes, recipient: Bytes, sender: Bytes,
                      timeout: nat, script: Bytes, args: seq<Bytes>)
    requires timeout == SMALL_INT_CAP + 1
    requires |hash| <= MAX_ITEM_BYTES && |recipient| <= MAX_ITEM_BYTES && |sender| <= MAX_ITEM_BYTES
    requires script == ScriptOf(HtlcCode(hash, recipient, sender, timeout)) && |script| <= MAX_SCRIPT_BYTES
    requires derive(script) == account && WitnessFits(args) && Refunds(e, sender, args)
    ensures var r := Eval(e, derive, account, script, args); r.Ok? && r.value.minHeight < timeout
  {
    HtlcSpends(e, derive, account, hash, recipient, sender, timeout, script, args);
  }
}
