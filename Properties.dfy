/** The SDK's shared settings object and its `key=value` argument parser. */
module SdkProperties {
  import opened Wrappers
  import opened IonText

  /** An argument has a value exactly when splitting it at '=' gives at least two pieces. */
  lemma SplitHasTwo(s: string, c: char)
    ensures |Split(s, c)| >= 2 <==> c in s
  {
  }

  /** Splitting a text whose first `n` characters hold no `c`, followed by `c` or by nothing,
      gives those `n` characters first and then the pieces of what follows the `c`. */
  lemma SplitHead(s: string, c: char, n: nat)
    requires n <= |s| && c !in s[..n]
    requires n < |s| ==> s[n] == c
    ensures Split(s, c)[0] == s[..n]
    ensures n < |s| ==> |Split(s, c)| >= 2 && Split(s, c)[1..] == Split(s[n + 1..], c)
  {
    if n == |s| {
      assert s[..n] == s;
    }
  }

  /** The key an argument sets: the text before its first '='. */
  function Key(arg: string): (k: string)
    ensures '=' !in k && k <= arg
  {
    var tokens := Split(arg, '=');
    assert arg == if |tokens| == 1 then tokens[0] else tokens[0] + ['='] + Join(tokens[1..], '=');
    tokens[0]
  }

  /** The value an argument sets: the text between its first and second '='. */
  function Value(arg: string): (v: string)
    requires '=' in arg
    ensures '=' !in v && |Key(arg)| + 1 + |v| <= |arg|
  {
    SplitHasTwo(arg, '=');
    var tokens := Split(arg, '=');
    var rest := tokens[1..];
    assert arg == tokens[0] + ['='] + Join(rest, '=');
    assert Join(rest, '=') == if |rest| == 1 then rest[0] else rest[0] + ['='] + Join(rest[1..], '=');
    tokens[1]
  }

  /** `key=value` followed by nothing or by a further '=' sets `key` to `value`: "a=b=c" sets
      `a` to "b". */
  lemma {:induction false} EntryTokens(key: string, value: string, rest: string)
    requires '=' !in key && '=' !in value
    requires rest == [] || rest[0] == '='
    ensures var arg := key + "=" + value + rest;
            '=' in arg && Key(arg) == key && Value(arg) == value
  {
    var arg := key + "=" + value + rest;
    assert arg[..|key|] == key;
    assert arg[|key|] == '=';
    SplitHead(arg, '=', |key|);
    var tail := arg[|key| + 1..];
    assert tail == value + rest;
    assert tail[..|value|] == value;
    SplitHead(tail, '=', |value|);
  }

  /** The dictionary and the outcome that `SetOtherProperties` leaves behind. */
  datatype Settled = Settled(props: map<string, string>, outcome: Outcome)

  /** Each argument in turn sets `Key(arg)` to `Value(arg)`; the first argument without '='
      stops the loop with `IndexOutOfRange`, keeping what the earlier arguments set. */
  function ApplySettings(m: map<string, string>, args: seq<string>): (r: Settled)
    ensures r.outcome.Pass? <==> forall i :: 0 <= i < |args| ==> '=' in args[i]
    ensures r.outcome.Fail? ==> r.outcome.error == IndexOutOfRange
    ensures m.Keys <= r.props.Keys
    decreases |args|
  {
    if |args| == 0 then Settled(m, Pass)
    else
      var tokens := Split(args[0], '=');
      SplitHasTwo(args[0], '=');
      if |tokens| < 2 then Settled(m, Fail(IndexOutOfRange))
      else
        var r := ApplySettings(m[tokens[0] := tokens[1]], args[1..]);
        assert forall i :: 1 <= i < |args| ==> args[i] == args[1..][i - 1];
        r
  }

  /** A key that no argument names keeps its value, or stays absent. */
  lemma {:induction false} SettingsKeepUntouched(m: map<string, string>, args: seq<string>, k: string)
    requires forall i :: 0 <= i < |args| ==> Key(args[i]) != k
    ensures var r := ApplySettings(m, args).props;
            (k in r <==> k in m) && (k in m ==> r[k] == m[k])
    decreases |args|
  {
    if |args| > 0 && '=' in args[0] {
      SplitHasTwo(args[0], '=');
      var tokens := Split(args[0], '=');
      assert forall i :: 0 <= i < |args[1..]| ==> Key(args[1..][i]) == Key(args[i + 1]);
      SettingsKeepUntouched(m[tokens[0] := tokens[1]], args[1..], k);
    }
  }

  /** An argument with a '=' sets its key to its value and hands the rest to the next turn. */
  lemma SettingsStep(m: map<string, string>, args: seq<string>)
    requires |args| > 0 && '=' in args[0]
    ensures ApplySettings(m, args) == ApplySettings(m[Key(args[0]) := Value(args[0])], args[1..])
  {
    SplitHasTwo(args[0], '=');
  }

  /** When every argument holds a '=', an argument whose key no later argument repeats leaves
      its own value under that key: the last occurrence of a key wins. */
  lemma {:induction false} SettingsLastWins(m: map<string, string>, args: seq<string>, i: nat)
    requires i < |args|
    requires forall j :: 0 <= j < |args| ==> '=' in args[j]
    requires forall j :: i < j < |args| ==> Key(args[j]) != Key(args[i])
    ensures Key(args[i]) in ApplySettings(m, args).props
    ensures ApplySettings(m, args).props[Key(args[i])] == Value(args[i])
    decreases |args|
  {
    var m' := m[Key(args[0]) := Value(args[0])];
    SettingsStep(m, args);
    if i == 0 {
      assert forall j :: 0 <= j < |args[1..]| ==> Key(args[1..][j]) == Key(args[j + 1]);
      SettingsKeepUntouched(m', args[1..], Key(args[0]));
    } else {
      assert args[1..][i - 1] == args[i];
      assert forall j :: 0 <= j < |args[1..]| ==> args[1..][j] == args[j + 1];
      SettingsLastWins(m', args[1..], i - 1);
    }
  }

  /** An argument without '=' stops the loop: the dictionary then holds what the arguments
      before it set. */
  lemma {:induction false} SettingsStopAtMalformed(m: map<string, string>, args: seq<string>, f: nat)
    requires f < |args| && '=' !in args[f]
    requires forall j :: 0 <= j < f ==> '=' in args[j]
    ensures ApplySettings(m, args).outcome == Fail(IndexOutOfRange)
    ensures ApplySettings(m, args).props == ApplySettings(m, args[..f]).props
    decreases f
  {
    if f == 0 {
      SplitHasTwo(args[0], '=');
      assert args[..0] == [];
    } else {
      var m' := m[Key(args[0]) := Value(args[0])];
      SettingsStep(m, args);
      assert args[..f][0] == args[0] && args[..f][1..] == args[1..][..f - 1];
      SettingsStep(m, args[..f]);
      assert forall j :: 0 <= j < f - 1 ==> args[1..][j] == args[j + 1];
      SettingsStopAtMalformed(m', args[1..], f - 1);
    }
  }

  /** `Properties`: the settings shared by the SDK's plugins. */
  class Properties {
    var outputDirectory: Option<string>
    var filePath: Option<string>
    var projectDirectory: Option<string>
    var commandLine: Option<string>
    var otherProperties: map<string, string>

    constructor ()
      ensures otherProperties == map[]
      ensures outputDirectory.None? && filePath.None? && projectDirectory.None? && commandLine.None?
    {
      outputDirectory := None;
      filePath := None;
      projectDirectory := None;
      commandLine := None;
      otherProperties := map[];
    }

    /** `SetOtherProperties`: a missing argument list is refused; otherwise each `key=value`
        argument in turn is stored in `otherProperties`. */
    method SetOtherProperties(args: Option<seq<string>>) returns (r: Outcome)
      modifies this
      ensures args.None? ==> r == Fail(ArgumentNull) && otherProperties == old(otherProperties)
      ensures args.Some? ==> Settled(otherProperties, r) == ApplySettings(old(otherProperties), args.value)
      ensures outputDirectory == old(outputDirectory) && filePath == old(filePath)
      ensures projectDirectory == old(projectDirectory) && commandLine == old(commandLine)
    {
      if args.None? {
        return Fail(ArgumentNull);
      }
      var list := args.value;
      var i := 0;
      while i < |list|
        invariant 0 <= i <= |list|
        invariant ApplySettings(old(otherProperties), list) == ApplySettings(otherProperties, list[i..])
        invariant outputDirectory == old(outputDirectory) && filePath == old(filePath)
        invariant projectDirectory == old(projectDirectory) && commandLine == old(commandLine)
      {
        var tokens := Split(list[i], '=');
        assert list[i..][0] == list[i];
        if |tokens| < 2 {
          return Fail(IndexOutOfRange);
        }
        ghost var before := otherProperties;
        otherProperties := otherProperties[tokens[0] := tokens[1]];
        assert list[i..][1..] == list[i + 1..];
        assert ApplySettings(before, list[i..]) == ApplySettings(otherProperties, list[i + 1..]);
        i := i + 1;
      }
      assert list[i..] == [];
      return Pass;
    }
  }

  /** The static `_instance` slot behind `Properties.Instance`. */
  class PropertiesHolder {
    var instance: Properties?

    constructor ()
      ensures instance == null
    {
      instance := null;
    }

    /** `Instance`: creates the shared settings object on first use, then keeps returning it. */
    method Instance() returns (p: Properties)
      modifies this
      ensures instance == p
      ensures old(instance) != null ==> p == old(instance)
      ensures old(instance) == null ==> fresh(p) && p.otherProperties == map[] &&
                                        p.outputDirectory.None? && p.filePath.None? &&
                                        p.projectDirectory.None? && p.commandLine.None?
    {
      if instance == null {
        instance := new Properties();
      }
      p := instance;
    }

    /** Two reads of `Instance` give the same object. */
    method InstanceIsShared() returns (p: Properties, q: Properties)
      modifies this
      ensures p == q && instance == p
    {
      p := Instance();
      q := Instance();
    }
  }
}
