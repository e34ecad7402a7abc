/** The `config` command group of the Python CLI: it records its arguments
    in the click context object and then checks the positional pairs
    against the selected mode, echoing one line per accepted pair. With
    `-w` every pair must be `key=value`; with `-r` (and no `-w`) every
    pair must be a bare key; with neither flag the call is a usage error.
    Echoed lines are returned instead of written to the terminal, and the
    click exceptions become cases of `ConfigResult`. */
module ConfigCommand {
  import opened Wrappers

  /** The values the command stores in the context object. */
  datatype CtxValue = Pairs(pairs: seq<string>) | Flag(flag: bool)

  /** The part of click's context the command touches: its user object,
      absent until some command asks for one. */
  class Context {
    var obj: Option<map<string, CtxValue>>

    constructor ()
      ensures obj == None
    {
      obj := None;
    }

    /** `ensure_object(dict)`: create an empty dictionary if there is no
        object yet, and keep an existing one. */
    method EnsureObject()
      modifies this
      ensures obj == Some(if old(obj).Some? then old(obj).value else map[])
    {
      if obj.None? {
        obj := Some(map[]);
      }
    }

    /** `ctx.obj[key] = value`. */
    method Store(key: string, value: CtxValue)
      requires obj.Some?
      modifies this
      ensures obj == Some(old(obj).value[key := value])
    {
      obj := Some(obj.value[key := value]);
    }
  }

  /** What a call ends in: success with the echoed lines, `BadParameter`
      after the lines echoed so far, or `UsageError`. */
  datatype ConfigResult =
    | Ok(echoed: seq<string>)
    | BadParameter(message: string, echoed: seq<string>)
    | UsageError(message: string)

  const WriteHeader: string := "写入配置:"
  const ReadHeader: string := "读取配置:"
  const ModeMissing: string := "请指定 -r (读取) 或 -w (写入) 模式"

  function WriteRejection(pair: string): string {
    "写入模式需要 key=value 格式，得到: '" + pair + "'"
  }

  function ReadRejection(key: string): string {
    "读取模式只需要键名，得到: '" + key + "'"
  }

  /** `pair.split('=', 1)`: the text before the first '=' and the text
      after it. */
  function SplitFirst(pair: string): (kv: (string, string))
    requires '=' in pair
    ensures kv.0 + "=" + kv.1 == pair && '=' !in kv.0
  {
    if pair[0] == '=' then ("", pair[1..])
    else
      var rest := SplitFirst(pair[1..]);
      ([pair[0]] + rest.0, rest.1)
  }

  /** The split is the only one at an '=' with an '='-free key: splitting a
      joined key and value gives them back. */
  lemma {:induction false} SplitFirstJoin(key: string, value: string)
    requires '=' !in key
    ensures SplitFirst(key + "=" + value) == (key, value)
  {
    var pair := key + "=" + value;
    if key != [] {
      assert pair[1..] == key[1..] + "=" + value;
      SplitFirstJoin(key[1..], value);
      assert [key[0]] + key[1..] == key;
    } else {
      assert pair[1..] == value;
    }
  }

  function WriteLine(pair: string): string
    requires '=' in pair
  {
    var kv := SplitFirst(pair);
    "  " + kv.0 + " = " + kv.1
  }

  function ReadLine(key: string): string {
    "  " + key + " = (配置值)"
  }

  /** A pair the mode refuses: one without '=' when writing, one with '='
      when reading. */
  predicate Rejected(pair: string, write: bool) {
    if write then '=' !in pair else '=' in pair
  }

  /** The index of the first refused pair, or the number of pairs if none
      is refused. */
  function FirstRejected(pairs: seq<string>, write: bool): (i: nat)
    ensures i <= |pairs|
    ensures forall j :: 0 <= j < i ==> !Rejected(pairs[j], write)
    ensures i < |pairs| ==> Rejected(pairs[i], write)
  {
    if pairs == [] then 0
    else if Rejected(pairs[0], write) then 0
    else 1 + FirstRejected(pairs[1..], write)
  }

  function EchoLine(pair: string, write: bool): string
    requires !Rejected(pair, write)
  {
    if write then WriteLine(pair) else ReadLine(pair)
  }

  /** The lines echoed for pairs the mode accepts, in order. */
  function Echoes(pairs: seq<string>, write: bool): (lines: seq<string>)
    requires forall j :: 0 <= j < |pairs| ==> !Rejected(pairs[j], write)
    ensures |lines| == |pairs|
  {
    seq(|pairs|, j requires 0 <= j < |pairs| => EchoLine(pairs[j], write))
  }

  /** The outcome of the checks: `-w` takes precedence over `-r`; the
      header and the lines of the pairs before the first refused one are
      echoed, then the refused pair is reported. */
  function Checked(pairs: seq<string>, readMode: bool, writeMode: bool): ConfigResult {
    if !writeMode && !readMode then UsageError(ModeMissing)
    else
      var i := FirstRejected(pairs, writeMode);
      var lines := [if writeMode then WriteHeader else ReadHeader] + Echoes(pairs[..i], writeMode);
      if i == |pairs| then Ok(lines)
      else BadParameter(if writeMode then WriteRejection(pairs[i]) else ReadRejection(pairs[i]), lines)
  }

  /** The mode checks of `config`: echo the header, then each pair, and
      stop at the first pair the mode refuses. */
  method CheckPairs(pairs: seq<string>, readMode: bool, writeMode: bool) returns (r: ConfigResult)
    ensures r == Checked(pairs, readMode, writeMode)
  {
    if writeMode {
      var echoed := [WriteHeader];
      for i := 0 to |pairs|
        invariant FirstRejected(pairs, true) >= i
        invariant echoed == [WriteHeader] + Echoes(pairs[..i], true)
      {
        var pair := pairs[i];
        if '=' !in pair {
          return BadParameter(WriteRejection(pair), echoed);
        }
        var kv := SplitFirst(pair);
        echoed := echoed + ["  " + kv.0 + " = " + kv.1];
      }
      assert pairs[..|pairs|] == pairs;
      r := Ok(echoed);
    } else if readMode {
      var echoed := [ReadHeader];
      for i := 0 to |pairs|
        invariant FirstRejected(pairs, false) >= i
        invariant echoed == [ReadHeader] + Echoes(pairs[..i], false)
      {
        var key := pairs[i];
        if '=' in key {
          return BadParameter(ReadRejection(key), echoed);
        }
        echoed := echoed + ["  " + key + " = (配置值)"];
      }
      assert pairs[..|pairs|] == pairs;
      r := Ok(echoed);
    } else {
      r := UsageError(ModeMissing);
    }
  }

  /** The context object after the three stores: `pairs`, `read_mode`
      and `write_mode` are set over whatever object there was. */
  function Stored(obj: Option<map<string, CtxValue>>, pairs: seq<string>, readMode: bool, writeMode: bool)
    : map<string, CtxValue>
  {
    (if obj.Some? then obj.value else map[])
      ["pairs" := Pairs(pairs)]["read_mode" := Flag(readMode)]["write_mode" := Flag(writeMode)]
  }

  /** The `config` group callback: record the arguments in the context
      object, whatever the outcome, then check the pairs. */
  method Config(ctx: Context, pairs: seq<string>, readMode: bool, writeMode: bool) returns (r: ConfigResult)
    modifies ctx
    ensures ctx.obj == Some(Stored(old(ctx.obj), pairs, readMode, writeMode))
    ensures r == Checked(pairs, readMode, writeMode)
  {
    ctx.EnsureObject();
    ctx.Store("pairs", Pairs(pairs));
    ctx.Store("read_mode", Flag(readMode));
    ctx.Store("write_mode", Flag(writeMode));
    r := CheckPairs(pairs, readMode, writeMode);
  }

  /** The stored object holds the three arguments and keeps every other
      entry of an existing object. */
  lemma StoredEntries(obj: Option<map<string, CtxValue>>, pairs: seq<string>, readMode: bool, writeMode: bool)
    ensures var m := Stored(obj, pairs, readMode, writeMode);
      && m["pairs"] == Pairs(pairs) && m["read_mode"] == Flag(readMode) && m["write_mode"] == Flag(writeMode)
      && (forall k :: k in m && k !in {"pairs", "read_mode", "write_mode"} ==> obj.Some? && k in obj.value && m[k] == obj.value[k])
      && (obj.Some? ==> forall k :: k in obj.value ==> k in m)
  {
  }

  /** The call succeeds iff a mode is given and the mode accepts every
      pair. */
  lemma CheckedOkIff(pairs: seq<string>, readMode: bool, writeMode: bool)
    ensures Checked(pairs, readMode, writeMode).Ok? <==>
      (writeMode || readMode) && forall j :: 0 <= j < |pairs| ==> !Rejected(pairs[j], writeMode)
  {
    if writeMode || readMode {
      var i := FirstRejected(pairs, writeMode);
      if forall j :: 0 <= j < |pairs| ==> !Rejected(pairs[j], writeMode) {
        assert i == |pairs|;
      }
    }
  }

  /** On a successful write every pair is echoed as its key and value,
      split at the pair's first '='. */
  lemma WriteEchoes(pairs: seq<string>, readMode: bool)
    requires Checked(pairs, readMode, true).Ok?
    ensures var lines := Checked(pairs, readMode, true).echoed;
      && |lines| == |pairs| + 1 && lines[0] == WriteHeader
      && forall j :: 0 <= j < |pairs| ==>
           exists key, value :: '=' !in key && pairs[j] == key + "=" + value && lines[j + 1] == "  " + key + " = " + value
  {
    CheckedOkIff(pairs, readMode, true);
    var lines := Checked(pairs, readMode, true).echoed;
    assert pairs[..|pairs|] == pairs;
    forall j | 0 <= j < |pairs|
      ensures exists key, value :: '=' !in key && pairs[j] == key + "=" + value && lines[j + 1] == "  " + key + " = " + value
    {
      var kv := SplitFirst(pairs[j]);
      assert lines[j + 1] == "  " + kv.0 + " = " + kv.1;
    }
  }

  /** A refusal names the first refused pair, after the header and the
      lines of every pair before it. */
  lemma RejectionIsFirst(pairs: seq<string>, readMode: bool, writeMode: bool)
    requires Checked(pairs, readMode, writeMode).BadParameter?
    ensures var r := Checked(pairs, readMode, writeMode);
      exists i :: 0 <= i < |pairs|
        && Rejected(pairs[i], writeMode)
        && (forall j :: 0 <= j < i ==> !Rejected(pairs[j], writeMode))
        && r.message == (if writeMode then WriteRejection(pairs[i]) else ReadRejection(pairs[i]))
        && |r.echoed| == i + 1
  {
    var i := FirstRejected(pairs, writeMode);
    assert i < |pairs|;
  }

  /** `-w` wins over `-r`: with both flags the pairs are checked for
      writing. */
  lemma WriteTakesPrecedence(pairs: seq<string>)
    ensures Checked(pairs, true, true) == Checked(pairs, false, true)
    ensures Checked(pairs, false, false) == UsageError(ModeMissing)
  {
  }
}
