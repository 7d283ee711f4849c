/** The argument view as the dispatcher uses it. How a single flag is found
    and removed from the tokens is not part of this model: the extraction step
    is an oracle `extract` that, given the current tokens and a flag, returns
    the parameter it found and the remaining tokens. What the dispatcher adds
    on top is the order and number of extraction steps, modelled here. */
module ArgsModel {
  import opened CliTypes

  /** One extraction step: `args.Extract(flag)`. */
  type Extractor = (Args, Flag) -> (Parameter, Args)

  /** `NewArgs(arguments)`: a view over the raw tokens. */
  function NewArgs(arguments: seq<string>): Args
  {
    arguments
  }

  /** `args.Peek(i)`: the i-th remaining token, or "" when there is none. */
  function Peek(args: Args, i: nat): string
  {
    if i < |args| then args[i] else ""
  }

  /** Extracting the flags `fs` one after the other, each step working on the
      tokens the previous one left: the parameters in step order and the final
      tokens. One parameter is produced per flag. */
  function ExtractAll(extract: Extractor, args: Args, fs: seq<Flag>): (res: (Parameters, Args))
    ensures |res.0| == |fs|
    decreases |fs|
  {
    if fs == [] then ([], args)
    else
      var step := extract(args, fs[0]);
      var more := ExtractAll(extract, step.1, fs[1..]);
      ([step.0] + more.0, more.1)
  }

  /** Extracting `fs1 + fs2` is extracting `fs1` and then `fs2` from what is
      left; the parameters of the first run come before those of the second. */
  lemma {:induction false} ExtractAllAppend(extract: Extractor, args: Args, fs1: seq<Flag>, fs2: seq<Flag>)
    ensures var first := ExtractAll(extract, args, fs1);
            var second := ExtractAll(extract, first.1, fs2);
            ExtractAll(extract, args, fs1 + fs2) == (first.0 + second.0, second.1)
    decreases |fs1|
  {
    if fs1 == [] {
      assert fs1 + fs2 == fs2;
      var second := ExtractAll(extract, args, fs2);
      assert [] + second.0 == second.0;
    } else {
      var step := extract(args, fs1[0]);
      assert (fs1 + fs2)[0] == fs1[0];
      assert (fs1 + fs2)[1..] == fs1[1..] + fs2;
      ExtractAllAppend(extract, step.1, fs1[1..], fs2);
      var more := ExtractAll(extract, step.1, fs1[1..]);
      var second := ExtractAll(extract, more.1, fs2);
      assert [step.0] + (more.0 + second.0) == ([step.0] + more.0) + second.0;
    }
  }

  /** The tokens that the i-th extraction step of `fs` works on. */
  function ArgsBefore(extract: Extractor, args: Args, fs: seq<Flag>, i: nat): Args
    requires i <= |fs|
  {
    ExtractAll(extract, args, fs[..i]).1
  }

  /** The i-th parameter is exactly what one extraction of the i-th flag
      returned, applied to the tokens the earlier steps left. */
  lemma {:induction false} ExtractAllAt(extract: Extractor, args: Args, fs: seq<Flag>, i: nat)
    requires i < |fs|
    ensures ExtractAll(extract, args, fs).0[i] == extract(ArgsBefore(extract, args, fs, i), fs[i]).0
  {
    assert fs == fs[..i] + ([fs[i]] + fs[i + 1..]);
    ExtractAllAppend(extract, args, fs[..i], [fs[i]] + fs[i + 1..]);
    var before := ArgsBefore(extract, args, fs, i);
    assert ([fs[i]] + fs[i + 1..])[1..] == fs[i + 1..];
  }

  /** `s` lists every key of `keys` exactly once, in some order: the shape of
      a Go `range` over a map, whose order is unspecified. */
  ghost predicate IsEnumeration(s: seq<string>, keys: set<string>)
  {
    && (forall i, j :: 0 <= i < j < |s| ==> s[i] != s[j])
    && (forall i :: 0 <= i < |s| ==> s[i] in keys)
    && (forall k :: k in keys ==> k in s)
  }

  /** An enumeration takes exactly as many steps as there are keys. */
  lemma {:induction false} EnumerationLength(s: seq<string>, keys: set<string>)
    requires IsEnumeration(s, keys)
    ensures |s| == |keys|
  {
    if s != [] {
      var rest := keys - {s[0]};
      forall k | k in rest ensures k in s[1..] {
        var i :| 0 <= i < |s| && s[i] == k;
        assert i != 0;
        assert s[1..][i - 1] == k;
      }
      assert IsEnumeration(s[1..], rest);
      EnumerationLength(s[1..], rest);
    }
  }

  /** The flags found under the keys `ks`, in that order. */
  function FlagsAt(m: map<string, Flag>, ks: seq<string>): seq<Flag>
    requires forall i :: 0 <= i < |ks| ==> ks[i] in m
  {
    seq(|ks|, i requires 0 <= i < |ks| => m[ks[i]])
  }

  /** The loop `for _, flag := range m { parameter, args = args.Extract(*flag);
      parameters.AddParameter(parameter) }`: every flag of `m` is extracted
      once, in an order the map chooses, each step on the tokens the previous
      one left; `parameters` holds what the steps returned, in step order. */
  method ExtractEach(extract: Extractor, args: Args, m: map<string, Flag>)
    returns (parameters: Parameters, rest: Args, ghost order: seq<string>)
    ensures IsEnumeration(order, m.Keys)
    ensures |parameters| == |m|
    ensures (parameters, rest) == ExtractAll(extract, args, FlagsAt(m, order))
  {
    parameters, rest, order := [], args, [];
    var remaining := m.Keys;
    while remaining != {}
      invariant remaining <= m.Keys
      invariant forall i, j :: 0 <= i < j < |order| ==> order[i] != order[j]
      invariant forall i :: 0 <= i < |order| ==> order[i] in m && order[i] !in remaining
      invariant forall k :: k in m.Keys ==> k in remaining || k in order
      invariant (parameters, rest) == ExtractAll(extract, args, FlagsAt(m, order))
      decreases remaining
    {
      var k :| k in remaining;
      var step := extract(rest, m[k]);
      ExtractAllAppend(extract, args, FlagsAt(m, order), [m[k]]);
      assert ExtractAll(extract, rest, [m[k]]) == ([step.0], step.1) by {
        assert [m[k]][1..] == [];
        assert ExtractAll(extract, step.1, []) == ([], step.1);
        assert [step.0] + [] == [step.0];
      }
      assert FlagsAt(m, order + [k]) == FlagsAt(m, order) + [m[k]];
      parameters, rest := parameters + [step.0], step.1;
      order, remaining := order + [k], remaining - {k};
    }
    EnumerationLength(order, m.Keys);
  }
}
