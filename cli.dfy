/**
 * The command-line layer (src/aw_watcher_ask/cli.py): the parser for the
 * extra options that the `run` command does not declare, and the merge of
 * those options into the parameters handed to the watcher.
 *
 * The model follows the code. Its comments promise that `--name v1 v2`
 * collects the values that follow an option; the loop that would do so
 * re-reads the option token itself, which starts with `-`, and leaves on its
 * first test. So a bare token never becomes a value, an option without `=`
 * is always the flag `True`, and no stored value is ever a list.
 */
module Cli {
  /**
   * A value of an extra command-line option, forwarded to Zenity as a keyword
   * argument: a flag, one string, or a list of strings.
   */
  datatype ArgValue = Flag(on: bool) | Text(text: string) | Texts(items: seq<string>)

  predicate StartsWithDash(s: string) {
    |s| > 0 && s[0] == '-'
  }

  /** `s.split("=", 1)`: the whole string, or the text before and after the first `=`. */
  function SplitOnce(s: string): (r: seq<string>)
    ensures |r| == 1 || |r| == 2
    ensures |r| == 1 <==> '=' !in s
    ensures |r| == 1 ==> r[0] == s
    ensures |r| == 2 ==> '=' !in r[0] && s == r[0] + "=" + r[1]
  {
    if s == [] then [s]
    else if s[0] == '=' then ["", s[1..]]
    else
      var rest := SplitOnce(s[1..]);
      assert s == [s[0]] + s[1..];
      [[s[0]] + rest[0]] + rest[1..]
  }

  /** `s.lstrip("-")`: the longest suffix of `s` that does not start with `-`. */
  function StripDashes(s: string): (r: string)
    ensures |r| <= |s| && r == s[|s| - |r|..]
    ensures forall i :: 0 <= i < |s| - |r| ==> s[i] == '-'
    ensures !StartsWithDash(r)
  {
    if StartsWithDash(s) then StripDashes(s[1..]) else s
  }

  /** The dictionary key an option token creates: it has no `=` and no leading dash. */
  function OptionName(token: string): (name: string)
    ensures '=' !in name && !StartsWithDash(name)
  {
    var head := SplitOnce(token)[0];
    var name := StripDashes(head);
    SuffixKeepsOut(head, |head| - |name|, '=');
    name
  }

  /**
   * The value an option token stores: the text after the first `=` when
   * there is one, else `True`; never a list.
   */
  function TokenValue(token: string): (v: ArgValue)
    ensures v.Text? <==> '=' in token
    ensures v.Flag? ==> v.on
    ensures !v.Texts?
  {
    var pieces := SplitOnce(token);
    if |pieces| == 2 then Text(pieces[1]) else Flag(true)
  }

  /**
   * What `_parse_extra_args` returns: the options of `args`, read left to
   * right; every key is a name with its dashes stripped and no `=`.
   */
  function Parsed(args: seq<string>): (options: map<string, ArgValue>)
    ensures forall key :: key in options ==> '=' !in key && !StartsWithDash(key)
  {
    if args == [] then map[]
    else
      var options := Parsed(args[..|args| - 1]);
      var token := args[|args| - 1];
      if StartsWithDash(token) then options[OptionName(token) := TokenValue(token)] else options
  }

  /** `_parse_extra_args`. */
  method ParseExtraArgs(extraArgs: seq<string>) returns (options: map<string, ArgValue>)
    ensures options == Parsed(extraArgs)
  {
    options := map[];
    for ix := 0 to |extraArgs|
      invariant options == Parsed(extraArgs[..ix])
    {
      assert extraArgs[..ix + 1][..ix] == extraArgs[..ix];
      if StartsWithDash(extraArgs[ix]) {
        var pieces := SplitOnce(extraArgs[ix]);
        var optionName := StripDashes(pieces[0]);
        var optionValues := pieces[1..];
        if |optionValues| == 0 {
          // The `while True` that should collect the values after the option
          // tests this same token again; it starts with `-`, so the loop
          // breaks on its first test and collects nothing.
          assert StartsWithDash(extraArgs[ix]);
        }
        if |optionValues| == 0 {
          options := options[optionName := Flag(true)];
        } else if |optionValues| == 1 {
          options := options[optionName := Text(optionValues[0])];
        } else {
          options := options[optionName := Texts(optionValues)];
        }
      }
    }
    assert extraArgs[..|extraArgs|] == extraArgs;
  }

  /**
   * An option token is its leading dashes, its key and, when it has one, `=`
   * and its value: key and value can be read back from the dictionary entry.
   */
  lemma TokenShape(token: string)
    requires StartsWithDash(token)
    ensures var name, k := OptionName(token), |SplitOnce(token)[0]| - |OptionName(token)|;
      && 0 <= k <= |token|
      && (forall i :: 0 <= i < k ==> token[i] == '-')
      && '=' !in name
      && !StartsWithDash(name)
      && match TokenValue(token)
         case Text(v) => token == token[..k] + name + "=" + v
         case Flag(b) => b && '=' !in token && token == token[..k] + name
         case Texts(_) => false
  {
    var pieces := SplitOnce(token);
    var head, name := pieces[0], OptionName(token);
    var k := |head| - |name|;
    assert name == head[k..];
    assert head == head[..k] + name;
    if |pieces| == 2 {
      assert token == head + "=" + pieces[1];
      assert token[..k] == head[..k];
      assert token == token[..k] + name + "=" + pieces[1];
      forall i | 0 <= i < k ensures token[i] == '-' {
        assert token[i] == head[i];
      }
    } else {
      assert token == head;
    }
  }

  /** A character absent from a string is absent from each of its suffixes. */
  lemma SuffixKeepsOut(s: string, k: nat, c: char)
    requires k <= |s| && c !in s
    ensures c !in s[k..]
  {
    forall i | 0 <= i < |s| - k ensures s[k..][i] != c {
      assert s[k..][i] == s[k + i];
    }
  }

  /** The keys are exactly the names of the tokens that start with `-`. */
  lemma {:induction false} ParsedKeys(args: seq<string>, key: string)
    ensures key in Parsed(args) <==>
      exists i :: 0 <= i < |args| && StartsWithDash(args[i]) && OptionName(args[i]) == key
  {
    if args != [] {
      var init, last := args[..|args| - 1], args[|args| - 1];
      ParsedKeys(init, key);
      if exists i :: 0 <= i < |args| && StartsWithDash(args[i]) && OptionName(args[i]) == key {
        var i :| 0 <= i < |args| && StartsWithDash(args[i]) && OptionName(args[i]) == key;
        if i < |args| - 1 {
          assert init[i] == args[i];
        }
      }
      if key in Parsed(args) && key !in Parsed(init) {
        assert StartsWithDash(args[|args| - 1]) && OptionName(args[|args| - 1]) == key;
      }
      if key in Parsed(init) {
        var i :| 0 <= i < |init| && StartsWithDash(init[i]) && OptionName(init[i]) == key;
        assert args[i] == init[i];
      }
    }
  }

  /** No later token starting with `-` has the same key as the token at `i`. */
  ghost predicate IsLastOccurrence(args: seq<string>, i: nat)
    requires i < |args|
  {
    forall j :: i < j < |args| && StartsWithDash(args[j]) ==> OptionName(args[j]) != OptionName(args[i])
  }

  /** When an option repeats, its last occurrence decides the stored value. */
  lemma {:induction false} ParsedLastWins(args: seq<string>, i: nat)
    requires i < |args| && StartsWithDash(args[i]) && IsLastOccurrence(args, i)
    ensures OptionName(args[i]) in Parsed(args)
    ensures Parsed(args)[OptionName(args[i])] == TokenValue(args[i])
  {
    var init := args[..|args| - 1];
    if i < |args| - 1 {
      assert init[i] == args[i];
      forall j | i < j < |init| && StartsWithDash(init[j])
        ensures OptionName(init[j]) != OptionName(init[i])
      {
        assert init[j] == args[j];
      }
      ParsedLastWins(init, i);
    }
  }

  /** Every stored value is `True` or a single string: the list branch is never taken. */
  lemma {:induction false} ParsedHasNoLists(args: seq<string>, key: string)
    requires key in Parsed(args)
    ensures Parsed(args)[key] == Flag(true) || Parsed(args)[key].Text?
  {
    var init, last := args[..|args| - 1], args[|args| - 1];
    if !(StartsWithDash(last) && OptionName(last) == key) {
      ParsedHasNoLists(init, key);
    }
  }

  /** A token that does not start with `-` changes nothing, wherever it stands. */
  lemma {:induction false} ParsedIgnoresBareTokens(before: seq<string>, token: string, after: seq<string>)
    requires !StartsWithDash(token)
    ensures Parsed(before + [token] + after) == Parsed(before + after)
    decreases |after|
  {
    if after == [] {
      ParsedAppend(before, token);
      assert before + [token] + after == before + [token] && before + after == before;
    } else {
      var init, last := after[..|after| - 1], after[|after| - 1];
      ParsedIgnoresBareTokens(before, token, init);
      ParsedAppend(before + [token] + init, last);
      ParsedAppend(before + init, last);
      assert before + [token] + after == before + [token] + init + [last];
      assert before + after == before + init + [last];
    }
  }

  /** Appending one token updates the dictionary by that token alone. */
  lemma ParsedAppend(args: seq<string>, token: string)
    ensures Parsed(args + [token])
      == if StartsWithDash(token) then Parsed(args)[OptionName(token) := TokenValue(token)] else Parsed(args)
  {
    assert (args + [token])[..|args|] == args;
  }

  /** An empty argument list gives an empty dictionary. */
  lemma ParsedEmpty()
    ensures Parsed([]) == map[]
  {
  }

  lemma StripTwoDashes(name: string)
    requires !StartsWithDash(name)
    ensures StripDashes("--" + name) == name
  {
    assert ("--" + name)[1..] == "-" + name;
    assert ("-" + name)[1..] == name;
  }

  /** `split("=", 1)` cuts at the first `=`. */
  lemma SplitAtFirstEquals(s: string, k: nat)
    requires k < |s| && s[k] == '=' && '=' !in s[..k]
    ensures SplitOnce(s) == [s[..k], s[k + 1..]]
  {
    assert s[k] in s;
    var r := SplitOnce(s);
    var n := |r[0]|;
    assert s == r[0] + "=" + r[1];
    assert s[n] == '=';
    assert r[0] == s[..k];
    assert r[1] == s[k + 1..];
  }

  /** A single option token `--name=value` stores `value`, later `=` included. */
  lemma {:induction false} ValueAfterFirstEquals(name: string, value: string)
    requires !StartsWithDash(name) && '=' !in name
    ensures Parsed(["--" + name + "=" + value]) == map[name := Text(value)]
  {
    var token := "--" + name + "=" + value;
    var k := |name| + 2;
    assert token[..k] == "--" + name;
    assert '=' !in token[..k] by {
      forall i | 0 <= i < k ensures token[..k][i] != '=' {
        if i >= 2 {
          assert token[..k][i] == name[i - 2];
          assert name[i - 2] in name;
        }
      }
    }
    SplitAtFirstEquals(token, k);
    assert token[k + 1..] == value;
    StripTwoDashes(name);
    var none: seq<string> := [];
    assert [token][..0] == none;
  }

  /**
   * The form `--name v1 v2 ...` that the comments describe stores the flag
   * `True` and drops the values.
   */
  lemma {:induction false} FlagIgnoresFollowingValues(name: string, values: seq<string>)
    requires !StartsWithDash(name) && '=' !in name
    requires forall i :: 0 <= i < |values| ==> !StartsWithDash(values[i])
    ensures Parsed(["--" + name] + values) == map[name := Flag(true)]
  {
    if values == [] {
      var token := "--" + name;
      assert '=' !in token by {
        forall i | 0 <= i < |token| ensures token[i] != '=' {
          if i >= 2 {
            assert token[i] == name[i - 2];
            assert name[i - 2] in name;
          }
        }
      }
      StripTwoDashes(name);
      var none: seq<string> := [];
      assert (["--" + name] + values)[..0] == none;
    } else {
      var init := values[..|values| - 1];
      FlagIgnoresFollowingValues(name, init);
      ParsedAppend(["--" + name] + init, values[|values| - 1]);
      assert ["--" + name] + init + [values[|values| - 1]] == ["--" + name] + values;
    }
  }

  /** The parameters of `run` other than `ctx`, which are the named parameters of `main`. */
  const MainParameters: set<string> :=
    {"question_type", "question_id", "title", "schedule", "until", "timeout", "testing"}

  /**
   * The parameter handling of `run`: copy the local variables, drop `ctx`,
   * then let the parsed extra options override same-named parameters.
   * `kwargs` is what `main(**params)` gathers into its `**kwargs`: the extra
   * options whose names are not parameters of `main`.
   */
  method Run<V>(locals: map<string, V>, ctxArgs: seq<string>, inject: ArgValue -> V)
    returns (params: map<string, V>, kwargs: map<string, ArgValue>)
    requires locals.Keys == MainParameters + {"ctx"}
    ensures params.Keys == (locals.Keys - {"ctx"}) + Parsed(ctxArgs).Keys
    ensures forall k :: k in Parsed(ctxArgs) ==> params[k] == inject(Parsed(ctxArgs)[k])
    ensures forall k :: k in locals && k != "ctx" && k !in Parsed(ctxArgs) ==> params[k] == locals[k]
    ensures kwargs.Keys == params.Keys - MainParameters
    ensures forall k :: k in kwargs ==> kwargs[k] == Parsed(ctxArgs)[k] && params[k] == inject(kwargs[k])
  {
    params := locals;
    params := params - {"ctx"};
    var extra := ParseExtraArgs(ctxArgs);
    params := params + map k | k in extra :: inject(extra[k]);
    kwargs := map k | k in extra && k !in MainParameters :: extra[k];
  }
}
