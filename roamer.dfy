/** Recipe variable substitution of `Roamer`: inside every string of a recipe
    value, each `{{ NAME }}` placeholder (the pattern `{{\s?\w+\s?}}`) is replaced
    by the environment variable NAME; lists and dicts are processed element by
    element. The environment (`os.environ`) is a parameter. `\w` is modelled as
    the ASCII letters, digits and `_`, `\s` as the ten ASCII characters Python
    counts as whitespace. */
module Roamer {
  import opened Wrappers
  import opened Text

  type Environment = map<string, string>

  datatype RoamerError = MissingEnvironmentVariable(name: string)

  // ------------------------------------------------ the placeholder pattern

  /** The characters below 0x80 that `\s` matches and `str.strip()` removes:
      space, tab, line feed, vertical tab, form feed, carriage return and the
      four separators 0x1C to 0x1F. */
  const Whitespace: set<char> :=
    {' ', '\t', '\n', '\r', 0x0B as char, 0x0C as char, 0x1C as char, 0x1D as char, 0x1E as char, 0x1F as char}

  predicate IsSpace(c: char) {
    c in Whitespace
  }

  predicate IsWord(c: char) {
    'a' <= c <= 'z' || 'A' <= c <= 'Z' || '0' <= c <= '9' || c == '_'
  }

  predicate AllWord(s: string) {
    forall k :: 0 <= k < |s| ==> IsWord(s[k])
  }

  /** `t` is `{{`, at most one whitespace character `lead`, a non-empty run of
      word characters `name`, at most one whitespace character `trail`, `}}`. */
  predicate PlaceholderOf(t: string, lead: string, name: string, trail: string) {
    && |lead| <= 1 && (lead == [] || IsSpace(lead[0]))
    && name != [] && AllWord(name)
    && |trail| <= 1 && (trail == [] || IsSpace(trail[0]))
    && t == "{{" + lead + name + trail + "}}"
  }

  /** What `{{\s?\w+\s?}}` matches. */
  ghost predicate IsPlaceholder(t: string) {
    exists lead: string, name: string, trail: string :: PlaceholderOf(t, lead, name, trail)
  }

  /** The end of the maximal run of word characters starting at `i`. */
  function WordRunEnd(s: string, i: nat): (j: nat)
    requires i <= |s|
    ensures i <= j <= |s|
    ensures forall k :: i <= k < j ==> IsWord(s[k])
    ensures j < |s| ==> !IsWord(s[j])
    decreases |s| - i
  {
    if i < |s| && IsWord(s[i]) then WordRunEnd(s, i + 1) else i
  }

  /** Past an optional whitespace character at `i`. `\s?` is greedy, and giving
      the character back never helps: a word character or a brace must follow. */
  function OptionalSpace(s: string, i: nat): (j: nat)
    requires i <= |s|
  {
    if i < |s| && IsSpace(s[i]) then i + 1 else i
  }

  /** The end of the match of `{{\s?\w+\s?}}` that starts at `i`, if any. */
  function MatchAt(s: string, i: nat): (r: Option<nat>)
    requires i <= |s|
    ensures r.Some? ==> i + 5 <= r.value <= |s|
  {
    if i + 2 <= |s| && s[i] == '{' && s[i + 1] == '{' then
      var a := OptionalSpace(s, i + 2);
      var b := WordRunEnd(s, a);
      var c := OptionalSpace(s, b);
      if a < b && c + 2 <= |s| && s[c] == '}' && s[c + 1] == '}' then Some(c + 2) else None
    else None
  }

  /** A string cut in three pieces is their concatenation. */
  lemma ThreePieces(s: string, i: nat, a: nat, b: nat, c: nat)
    requires i <= a <= b <= c <= |s|
    ensures s[i..c] == s[i..a] + s[a..b] + s[b..c]
  {
    assert s[i..c] == s[i..a] + s[a..c];
    assert s[a..c] == s[a..b] + s[b..c];
  }

  /** The positions `MatchAt` goes through on a match: past the opening braces
      and the optional space (`a`), past the word (`b`), past the optional
      space (`c`), and the closing braces. */
  lemma MatchAtPieces(s: string, i: nat) returns (a: nat, b: nat, c: nat)
    requires i <= |s| && MatchAt(s, i).Some?
    ensures a == OptionalSpace(s, i + 2) && b == WordRunEnd(s, a) && c == OptionalSpace(s, b)
    ensures i + 2 <= a <= i + 3 && a < b <= c <= b + 1 && c + 2 <= |s| && MatchAt(s, i) == Some(c + 2)
    ensures s[i] == '{' && s[i + 1] == '{' && s[c] == '}' && s[c + 1] == '}'
    ensures a == i + 2 || (a == i + 3 && IsSpace(s[i + 2]))
    ensures c == b || (c == b + 1 && IsSpace(s[b]))
    ensures IsWord(s[a]) && IsWord(s[b - 1])
  {
    a := OptionalSpace(s, i + 2);
    b := WordRunEnd(s, a);
    c := OptionalSpace(s, b);
  }

  /** What `MatchAt` matches is a placeholder. */
  lemma MatchAtIsPlaceholder(s: string, i: nat)
    requires i <= |s| && MatchAt(s, i).Some?
    ensures IsPlaceholder(s[i..MatchAt(s, i).value])
  {
    var a, b, c := MatchAtPieces(s, i);
    var j := c + 2;
    var lead, name, trail := s[i + 2..a], s[a..b], s[b..c];
    assert AllWord(name) by {
      forall k | 0 <= k < |name| ensures IsWord(name[k]) { assert name[k] == s[a + k]; }
    }
    assert |lead| <= 1 && (lead == [] || IsSpace(lead[0])) by {
      if a > i + 2 { assert lead[0] == s[i + 2]; }
    }
    assert |trail| <= 1 && (trail == [] || IsSpace(trail[0])) by {
      if c > b { assert trail[0] == s[b]; }
    }
    FivePieces(s, i, a, b, c);
    assert PlaceholderOf(s[i..j], lead, name, trail);
    assert s[i..MatchAt(s, i).value] == s[i..j];
  }

  /** A braced stretch of `s` cut at the positions of its pieces. */
  lemma FivePieces(s: string, i: nat, a: nat, b: nat, c: nat)
    requires i + 2 <= a <= b <= c && c + 2 <= |s|
    requires s[i] == '{' && s[i + 1] == '{' && s[c] == '}' && s[c + 1] == '}'
    ensures s[i..c + 2] == "{{" + s[i + 2..a] + s[a..b] + s[b..c] + "}}"
  {
    ThreePieces(s, i + 2, a, b, c);
    ThreePieces(s, i, i + 2, c, c + 2);
    assert s[i..i + 2] == "{{" && s[c..c + 2] == "}}";
  }

  /** A placeholder at `i` is what `MatchAt` matches there. */
  lemma PlaceholderIsMatched(s: string, i: nat, j: nat)
    requires i <= j <= |s| && IsPlaceholder(s[i..j])
    ensures MatchAt(s, i) == Some(j)
  {
    var lead, name, trail :| PlaceholderOf(s[i..j], lead, name, trail);
    PartsAreMatched(s, i, j, lead, name, trail);
  }

  lemma PartsAreMatched(s: string, i: nat, j: nat, lead: string, name: string, trail: string)
    requires i <= j <= |s| && PlaceholderOf(s[i..j], lead, name, trail)
    ensures MatchAt(s, i) == Some(j)
  {
    var a := i + 2 + |lead|;
    var b := a + |name|;
    var c := b + |trail|;
    PiecesAt(s, i, j, lead, name, trail);
    PositionsAreMatched(s, i, a, b, c, lead, name, trail);
  }

  /** The pieces of a placeholder found at `i`, by their positions in `s`. */
  lemma PiecesAt(s: string, i: nat, j: nat, lead: string, name: string, trail: string)
    requires i <= j <= |s| && s[i..j] == "{{" + lead + name + trail + "}}"
    ensures var a := i + 2 + |lead|; var b := a + |name|; var c := b + |trail|;
      && c + 2 == j && s[i..i + 2] == "{{" && s[i + 2..a] == lead && s[a..b] == name
      && s[b..c] == trail && s[c..c + 2] == "}}"
  {
    var a := i + 2 + |lead|;
    var b := a + |name|;
    var c := b + |trail|;
    PiecesOfPlaceholder(s[i..j], lead, name, trail);
    SliceOfSlice(s, i, j, 0, 2);
    SliceOfSlice(s, i, j, 2, a - i);
    SliceOfSlice(s, i, j, a - i, b - i);
    SliceOfSlice(s, i, j, b - i, c - i);
    SliceOfSlice(s, i, j, c - i, j - i);
  }

  lemma PositionsAreMatched(s: string, i: nat, a: nat, b: nat, c: nat, lead: string, name: string, trail: string)
    requires i + 2 <= a <= b <= c && c + 2 <= |s|
    requires s[i..i + 2] == "{{" && s[i + 2..a] == lead && s[a..b] == name
    requires s[b..c] == trail && s[c..c + 2] == "}}"
    requires |lead| <= 1 && (lead == [] || IsSpace(lead[0]))
    requires name != [] && AllWord(name)
    requires |trail| <= 1 && (trail == [] || IsSpace(trail[0]))
    ensures MatchAt(s, i) == Some(c + 2)
  {
    assert s[i] == s[i..i + 2][0] && s[i + 1] == s[i..i + 2][1];
    assert s[c] == s[c..c + 2][0] && s[c + 1] == s[c..c + 2][1];
    assert OptionalSpace(s, i + 2) == a by {
      if lead == [] {
        assert s[i + 2] == s[a..b][0];
      } else {
        assert s[i + 2] == s[i + 2..a][0];
      }
    }
    forall k | a <= k < b ensures IsWord(s[k]) {
      assert s[k] == s[a..b][k - a];
    }
    assert !IsWord(s[b]) && OptionalSpace(s, b) == c by {
      if trail == [] {
        assert s[b] == s[c..c + 2][0];
      } else {
        assert s[b] == s[b..c][0];
      }
    }
    WordRunEndAt(s, a, b);
  }

  /** The five pieces of a placeholder, recovered by position. */
  lemma PiecesOfPlaceholder(t: string, lead: string, name: string, trail: string)
    requires t == "{{" + lead + name + trail + "}}"
    ensures var a := 2 + |lead|; var b := a + |name|; var c := b + |trail|;
      && |t| == c + 2 && t[..2] == "{{" && t[2..a] == lead && t[a..b] == name
      && t[b..c] == trail && t[c..] == "}}"
  {
  }

  /** A run of word characters ended by a non-word character (or the end) is the maximal run. */
  lemma {:induction false} WordRunEndAt(s: string, a: nat, b: nat)
    requires a <= b <= |s|
    requires forall k :: a <= k < b ==> IsWord(s[k])
    requires b < |s| ==> !IsWord(s[b])
    ensures WordRunEnd(s, a) == b
    decreases b - a
  {
    if a < b {
      WordRunEndAt(s, a + 1, b);
    }
  }

  /** Two whitespace characters after the opening braces are not a match:
      `{{  X }}` is no placeholder. */
  lemma NoMatchWithTwoLeadingSpaces(s: string, i: nat)
    requires i + 4 <= |s| && IsSpace(s[i + 2]) && IsSpace(s[i + 3])
    ensures MatchAt(s, i) == None
  {
  }

  /** Two whitespace characters before the closing braces are not a match either. */
  lemma NoMatchWithTwoTrailingSpaces(s: string, i: nat)
    requires i <= |s| && MatchAt(s, i).Some?
    ensures var j := MatchAt(s, i).value; !(IsSpace(s[j - 3]) && IsSpace(s[j - 4]))
  {
    var a := OptionalSpace(s, i + 2);
    var b := WordRunEnd(s, a);
    assert IsWord(s[b - 1]);
  }

  /** `re.findall`: the non-overlapping matches, left to right, each search
      resuming where the previous match ended. */
  function FindAll(s: string, i: nat): (items: seq<string>)
    requires i <= |s|
    ensures forall k :: 0 <= k < |items| ==> 5 <= |items[k]| && items[k][..2] == "{{"
    decreases |s| - i
  {
    if i == |s| then []
    else match MatchAt(s, i)
      case Some(j) => [s[i..j]] + FindAll(s, j)
      case None => FindAll(s, i + 1)
  }

  /** Without a match anywhere there is nothing to find. */
  lemma {:induction false} FindAllNone(s: string, i: nat)
    requires i <= |s|
    requires forall k :: i <= k <= |s| ==> MatchAt(s, k).None?
    ensures FindAll(s, i) == []
    decreases |s| - i
  {
    if i < |s| {
      FindAllNone(s, i + 1);
    }
  }

  /** The variable name of a matched item: `item[2:-2].strip()`. */
  function PlaceholderName(item: string): string
  {
    if |item| >= 4 then Strip(item[2..|item| - 2], Whitespace) else []
  }

  /** The name is the word between the braces, without the optional whitespace. */
  lemma PlaceholderNameIsWord(s: string, i: nat)
    requires i <= |s| && MatchAt(s, i).Some?
    ensures var a := OptionalSpace(s, i + 2);
            PlaceholderName(s[i..MatchAt(s, i).value]) == s[a..WordRunEnd(s, a)]
  {
    var a, b, c := MatchAtPieces(s, i);
    NameInsidePadding(s, i, a, b, c);
    assert s[i..MatchAt(s, i).value] == s[i..c + 2];
  }

  lemma NameInsidePadding(s: string, i: nat, a: nat, b: nat, c: nat)
    requires i + 2 <= a <= b <= c && c + 2 <= |s| && a < b
    requires a == i + 2 || (a == i + 3 && IsSpace(s[i + 2]))
    requires c == b || (c == b + 1 && IsSpace(s[b]))
    requires IsWord(s[a]) && IsWord(s[b - 1])
    ensures PlaceholderName(s[i..c + 2]) == s[a..b]
  {
    var t := s[i..c + 2];
    SliceOfSlice(s, i, c + 2, 2, c - i);
    assert t[2..|t| - 2] == s[i + 2..c];
    ThreePieces(s, i + 2, a, b, c);
    OptionalSpacePiece(s, i + 2, a);
    OptionalSpacePiece(s, b, c);
    var core := s[a..b];
    assert IsWord(core[0]) && IsWord(core[|core| - 1]);
    StripOptionalSpaces(s[i + 2..a], core, s[b..c]);
  }

  /** The slice an optional `\s` covers is empty or one whitespace character. */
  lemma OptionalSpacePiece(s: string, x: nat, y: nat)
    requires x <= y <= |s|
    requires y == x || (y == x + 1 && IsSpace(s[x]))
    ensures |s[x..y]| == 0 || (|s[x..y]| == 1 && IsSpace(s[x..y][0]))
  {
  }

  /** At most one whitespace character on either side of a word is stripped away. */
  lemma StripOptionalSpaces(lead: string, core: string, trail: string)
    requires |lead| == 0 || (|lead| == 1 && IsSpace(lead[0]))
    requires |trail| == 0 || (|trail| == 1 && IsSpace(trail[0]))
    requires core != [] && IsWord(core[0]) && IsWord(core[|core| - 1])
    ensures Strip(lead + core + trail, Whitespace) == core
  {
    WordNotSpace(core[0]);
    WordNotSpace(core[|core| - 1]);
    StripPadded(lead, core, trail, Whitespace);
  }

  /** No word character is whitespace. */
  lemma WordNotSpace(c: char)
    requires IsWord(c)
    ensures c !in Whitespace
  {
  }

  // ------------------------------------------------------- string rewriting

  /** The replacement loop of `_replace_env_variables_in_str` as a fold over the
      matched items: each item's variable must be set, and the leftmost
      occurrence of the item in the string as rewritten so far is replaced. */
  function ReplaceItems(current: string, items: seq<string>, env: Environment): Result<string, RoamerError>
    decreases |items|
  {
    if items == [] then Ok(current)
    else
      var name := PlaceholderName(items[0]);
      if name !in env then Err(MissingEnvironmentVariable(name))
      else ReplaceItems(ReplaceFirst(current, items[0], env[name]), items[1..], env)
  }

  /** `_replace_env_variables_in_str`. */
  method ReplaceEnvVariablesInStr(variable: string, env: Environment) returns (r: Result<string, RoamerError>)
    ensures r == ReplaceItems(variable, FindAll(variable, 0), env)
  {
    var newVal := variable;
    var items := FindAll(variable, 0);
    for k := 0 to |items|
      invariant ReplaceItems(newVal, items[k..], env) == ReplaceItems(variable, items, env)
    {
      var item := items[k];
      var varName := PlaceholderName(item);
      if varName !in env {
        assert items[k..][0] == item;
        return Err(MissingEnvironmentVariable(varName));
      }
      var value := env[varName];
      assert items[k..][1..] == items[k + 1..];
      newVal := ReplaceFirst(newVal, item, value);
    }
    r := Ok(newVal);
  }

  /** The string, rewritten. */
  function ReplaceEnvVariables(s: string, env: Environment): Result<string, RoamerError>
  {
    ReplaceItems(s, FindAll(s, 0), env)
  }

  /** A string without any placeholder comes back unchanged. */
  lemma NoPlaceholderUnchanged(s: string, env: Environment)
    requires forall k :: 0 <= k <= |s| ==> MatchAt(s, k).None?
    ensures ReplaceEnvVariables(s, env) == Ok(s)
  {
    FindAllNone(s, 0);
  }

  /** The rewriting fails exactly when some matched item names a variable that
      is not set, and then it reports the first such name. */
  lemma {:induction false} ReplaceItemsFails(current: string, items: seq<string>, env: Environment)
    ensures ReplaceItems(current, items, env).Err? <==>
              exists k :: 0 <= k < |items| && PlaceholderName(items[k]) !in env
    ensures ReplaceItems(current, items, env).Err? ==>
              exists k :: 0 <= k < |items| && PlaceholderName(items[k]) !in env
                && ReplaceItems(current, items, env).error == MissingEnvironmentVariable(PlaceholderName(items[k]))
                && forall m :: 0 <= m < k ==> PlaceholderName(items[m]) in env
    decreases |items|
  {
    if items != [] {
      var name := PlaceholderName(items[0]);
      if name in env {
        var next := ReplaceFirst(current, items[0], env[name]);
        ReplaceItemsFails(next, items[1..], env);
        if ReplaceItems(current, items, env).Err? {
          var k :| 0 <= k < |items[1..]| && PlaceholderName(items[1..][k]) !in env
                && ReplaceItems(next, items[1..], env).error == MissingEnvironmentVariable(PlaceholderName(items[1..][k]))
                && forall m :: 0 <= m < k ==> PlaceholderName(items[1..][m]) in env;
          assert PlaceholderName(items[k + 1]) !in env;
          forall m | 0 <= m < k + 1 ensures PlaceholderName(items[m]) in env {
            if m > 0 { assert items[m] == items[1..][m - 1]; }
          }
        }
        if exists k :: 0 <= k < |items| && PlaceholderName(items[k]) !in env {
          var k :| 0 <= k < |items| && PlaceholderName(items[k]) !in env;
          assert k > 0 && items[1..][k - 1] == items[k];
        }
      }
    }
  }

  // ------------------------------------- reference: positional substitution

  /** The substitution a reader of the recipe expects: every placeholder found
      by the left-to-right scan is replaced, in place, by its variable's value,
      and all other text is kept. */
  function Expand(s: string, i: nat, env: Environment): Result<string, RoamerError>
    requires i <= |s|
    decreases |s| - i
  {
    if i == |s| then Ok("")
    else match MatchAt(s, i)
      case Some(j) =>
        var name := PlaceholderName(s[i..j]);
        if name !in env then Err(MissingEnvironmentVariable(name))
        else Prepend(env[name], Expand(s, j, env))
      case None => Prepend([s[i]], Expand(s, i + 1, env))
  }

  function Prepend(pre: string, r: Result<string, RoamerError>): Result<string, RoamerError>
  {
    match r
    case Ok(t) => Ok(pre + t)
    case Err(e) => Err(e)
  }

  /** Every `{` of `s` from `i` on belongs to a placeholder. */
  predicate BracesOnlyInPlaceholders(s: string, i: nat)
    requires i <= |s|
    decreases |s| - i
  {
    if i == |s| then true
    else match MatchAt(s, i)
      case Some(j) => BracesOnlyInPlaceholders(s, j)
      case None => s[i] != '{' && BracesOnlyInPlaceholders(s, i + 1)
  }

  predicate ValuesBraceFree(env: Environment) {
    forall name :: name in env ==> '{' !in env[name]
  }

  /** When no value brings in a `{` and the input has no `{` of its own outside
      placeholders, replacing the leftmost occurrence of each item is the same
      as replacing each placeholder where it was found. */
  lemma {:induction false} ReplaceItemsIsExpand(s: string, i: nat, pre: string, env: Environment)
    requires i <= |s| && BracesOnlyInPlaceholders(s, i) && ValuesBraceFree(env) && '{' !in pre
    ensures ReplaceItems(pre + s[i..], FindAll(s, i), env) == Prepend(pre, Expand(s, i, env))
    decreases |s| - i
  {
    if i == |s| {
      assert pre + s[i..] == pre;
    } else if MatchAt(s, i).Some? {
      var j := MatchAt(s, i).value;
      var name := PlaceholderName(s[i..j]);
      if name in env {
        ReplaceItemsIsExpand(s, j, pre + env[name], env);
        PlaceholderStep(s, i, pre, env);
      }
    } else {
      assert s[i] != '{' && BracesOnlyInPlaceholders(s, i + 1);
      ReplaceItemsIsExpand(s, i + 1, pre + [s[i]], env);
      CharacterStep(s, i, pre, env);
    }
  }

  /** One character outside any placeholder: it is kept where it stands. */
  lemma CharacterStep(s: string, i: nat, pre: string, env: Environment)
    requires i < |s| && MatchAt(s, i).None?
    requires ReplaceItems(pre + [s[i]] + s[i + 1..], FindAll(s, i + 1), env)
             == Prepend(pre + [s[i]], Expand(s, i + 1, env))
    ensures ReplaceItems(pre + s[i..], FindAll(s, i), env) == Prepend(pre, Expand(s, i, env))
  {
    assert pre + s[i..] == pre + [s[i]] + s[i + 1..];
    PrependTwice(pre, [s[i]], Expand(s, i + 1, env));
  }

  /** One placeholder of the agreement proof: replacing its leftmost occurrence
      replaces it where it stands. */
  lemma PlaceholderStep(s: string, i: nat, pre: string, env: Environment)
    requires i < |s| && MatchAt(s, i).Some? && ValuesBraceFree(env) && '{' !in pre
    requires PlaceholderName(s[i..MatchAt(s, i).value]) in env
    requires var j := MatchAt(s, i).value; var value := env[PlaceholderName(s[i..j])];
      ReplaceItems(pre + value + s[j..], FindAll(s, j), env) == Prepend(pre + value, Expand(s, j, env))
    ensures ReplaceItems(pre + s[i..], FindAll(s, i), env) == Prepend(pre, Expand(s, i, env))
  {
    var j := MatchAt(s, i).value;
    var item := s[i..j];
    var value := env[PlaceholderName(item)];
    var rest := FindAll(s, j);
    assert FindAll(s, i) == [item] + rest;
    assert ([item] + rest)[0] == item && ([item] + rest)[1..] == rest;
    assert s[i..][..|item|] == item && s[i..][|item|..] == s[j..];
    ReplaceFirstAfterPrefix(pre, s[i..], item, value);
    PrependTwice(pre, value, Expand(s, j, env));
  }

  lemma PrependTwice(a: string, b: string, r: Result<string, RoamerError>)
    ensures Prepend(a, Prepend(b, r)) == Prepend(a + b, r)
  {
    if r.Ok? {
      assert a + (b + r.value) == a + b + r.value;
    }
  }

  lemma ReplaceEnvVariablesIsExpand(s: string, env: Environment)
    requires BracesOnlyInPlaceholders(s, 0) && ValuesBraceFree(env)
    ensures ReplaceEnvVariables(s, env) == Expand(s, 0, env)
  {
    ReplaceItemsIsExpand(s, 0, [], env);
    assert [] + s[0..] == s;
    PrependEmpty(Expand(s, 0, env));
  }
  lemma PrependEmpty(r: Result<string, RoamerError>)
    ensures Prepend([], r) == r
  {
    if r.Ok? { assert [] + r.value == r.value; }
  }

  // -------------------------------------------------------- recipe values

  /** A recipe value: strings, lists and dicts (keys in insertion order), and the
      other YAML scalars. */
  datatype Value =
    | Str(s: string)
    | List(items: seq<Value>)
    | Dict(entries: seq<Entry>)
    | Number(n: int)
    | Boolean(b: bool)
    | Null

  datatype Entry = Entry(key: string, value: Value)

  function Keys(entries: seq<Entry>): seq<string>
  {
    seq(|entries|, k requires 0 <= k < |entries| => entries[k].key)
  }

  /** The first error among the results, in order, or all the values. */
  function Collect<T>(rs: seq<Result<T, RoamerError>>): (r: Result<seq<T>, RoamerError>)
    ensures r.Ok? <==> forall k :: 0 <= k < |rs| ==> rs[k].Ok?
    ensures r.Ok? ==> |r.value| == |rs| && forall k :: 0 <= k < |rs| ==> r.value[k] == rs[k].value
  {
    if rs == [] then Ok([])
    else match rs[0]
      case Err(e) => Err(e)
      case Ok(v) =>
        match Collect(rs[1..])
        case Err(e) => Err(e)
        case Ok(vs) => Ok([v] + vs)
  }

  /** `_resolve_variables`. */
  function ResolveVariables(v: Value, env: Environment): Result<Value, RoamerError>
  {
    match v
    case Str(s) =>
      (match ReplaceEnvVariables(s, env)
       case Ok(t) => Ok(Str(t))
       case Err(e) => Err(e))
    case List(items) =>
      (match Collect(ResolveEach(items, env))
       case Ok(vs) => Ok(List(vs))
       case Err(e) => Err(e))
    case Dict(entries) =>
      (match Collect(ResolveEntries(entries, env))
       case Ok(vs) => Ok(Dict(seq(|entries|, k requires 0 <= k < |entries| => Entry(entries[k].key, vs[k]))))
       case Err(e) => Err(e))
    case _ => Ok(v)
  }

  /** `Roamer.__call__`: the underlying value, resolved only when asked to. */
  function Call(result: Value, resolveVariables: bool, env: Environment): (r: Result<Value, RoamerError>)
    ensures !resolveVariables ==> r == Ok(result)
  {
    if resolveVariables then ResolveVariables(result, env) else Ok(result)
  }

  /** Two values of the same shape: the same kind at every level, lists of the
      same length, dicts with the same keys in the same order, equal non-string scalars. */
  predicate SameShape(v: Value, w: Value)
  {
    match v
    case Str(_) => w.Str?
    case List(items) =>
      w.List? && |w.items| == |items| &&
      forall k :: 0 <= k < |items| ==> SameShape(items[k], w.items[k])
    case Dict(entries) =>
      w.Dict? && Keys(w.entries) == Keys(entries) &&
      forall k :: 0 <= k < |entries| ==> SameShape(entries[k].value, w.entries[k].value)
    case _ => w == v
  }

  /** The results of resolving each of `values`. */
  function ResolveEach(values: seq<Value>, env: Environment): (rs: seq<Result<Value, RoamerError>>)
  {
    seq(|values|, k requires 0 <= k < |values| => ResolveVariables(values[k], env))
  }

  /** The results of resolving the value of each of `entries`. */
  function ResolveEntries(entries: seq<Entry>, env: Environment): (rs: seq<Result<Value, RoamerError>>)
  {
    seq(|entries|, k requires 0 <= k < |entries| => ResolveVariables(entries[k].value, env))
  }

  /** Resolving keeps the shape of the value. */
  lemma {:induction false} ResolveVariablesKeepsShape(v: Value, env: Environment)
    requires ResolveVariables(v, env).Ok?
    ensures SameShape(v, ResolveVariables(v, env).value)
  {
    match v
    case Str(_) =>
    case List(items) =>
      var w := ResolveVariables(v, env).value;
      var rs := ResolveEach(items, env);
      assert Collect(rs).Ok?;
      forall k | 0 <= k < |items| ensures SameShape(items[k], w.items[k]) {
        assert rs[k].Ok?;
        ResolveVariablesKeepsShape(items[k], env);
      }
    case Dict(entries) =>
      var w := ResolveVariables(v, env).value;
      var rs := ResolveEntries(entries, env);
      assert Collect(rs).Ok?;
      assert Keys(w.entries) == Keys(entries);
      forall k | 0 <= k < |entries| ensures SameShape(entries[k].value, w.entries[k].value) {
        assert rs[k].Ok?;
        ResolveVariablesKeepsShape(entries[k].value, env);
      }
    case _ =>
  }

  /** Every string inside the value can be rewritten. */
  predicate AllResolvable(v: Value, env: Environment)
  {
    match v
    case Str(s) => ReplaceEnvVariables(s, env).Ok?
    case List(items) => forall k :: 0 <= k < |items| ==> AllResolvable(items[k], env)
    case Dict(entries) => forall k :: 0 <= k < |entries| ==> AllResolvable(entries[k].value, env)
    case _ => true
  }

  /** Resolving a value succeeds exactly when every string in it can be rewritten. */
  lemma {:induction false} ResolveVariablesSucceeds(v: Value, env: Environment)
    ensures ResolveVariables(v, env).Ok? <==> AllResolvable(v, env)
  {
    match v
    case Str(_) =>
    case List(items) =>
      var rs := ResolveEach(items, env);
      forall k | 0 <= k < |items| ensures rs[k].Ok? <==> AllResolvable(items[k], env) {
        ResolveVariablesSucceeds(items[k], env);
      }
    case Dict(entries) =>
      var rs := ResolveEntries(entries, env);
      forall k | 0 <= k < |entries| ensures rs[k].Ok? <==> AllResolvable(entries[k].value, env) {
        ResolveVariablesSucceeds(entries[k].value, env);
      }
    case _ =>
  }

  /** Values other than strings, lists and dicts come back as they are. */
  lemma ScalarsUnchanged(v: Value, env: Environment)
    requires !v.Str? && !v.List? && !v.Dict?
    ensures ResolveVariables(v, env) == Ok(v)
  {
  }

  // ---------------------------------------------------------- an example

  /** The placeholder `{{p}}` for a one-character name. */
  function Braced(p: char): string {
    "{{" + [p] + "}}"
  }

  /** The leftmost-occurrence replacement can rewrite text that an earlier
      substitution brought in: with A = "{{B}}" and B = x, "{{A}}{{B}}" becomes
      x + "{{B}}", where replacing each placeholder in place gives "{{B}}" + x. */
  lemma SubstitutedTextCanBeRewritten(p: char, q: char, x: string)
    requires IsWord(p) && IsWord(q) && p != q
    ensures ReplaceEnvVariables(Braced(p) + Braced(q), map[[p] := Braced(q), [q] := x]) == Ok(x + Braced(q))
    ensures Expand(Braced(p) + Braced(q), 0, map[[p] := Braced(q), [q] := x]) == Ok(Braced(q) + x)
  {
    var a, b := Braced(p), Braced(q);
    var s := a + b;
    var env := map[[p] := b, [q] := x];
    ExampleMatches(p, q, s);
    ExampleNames(p, a);
    ExampleNames(q, b);
    ExampleFindAll(s, a, b);
    ExampleReplaceSteps(a, b, [p], [q], x, env);
    ExampleExpand(s, b, [p], [q], x, env);
  }

  lemma ExampleMatches(p: char, q: char, s: string)
    requires IsWord(p) && IsWord(q) && s == Braced(p) + Braced(q)
    ensures MatchAt(s, 0) == Some(5) && MatchAt(s, 5) == Some(10)
  {
    assert s[2] == p && s[3] == '}' && s[4] == '}';
    assert s[7] == q && s[8] == '}' && s[9] == '}';
    assert WordRunEnd(s, 3) == 3;
    assert WordRunEnd(s, 2) == 3;
    assert WordRunEnd(s, 8) == 8;
    assert WordRunEnd(s, 7) == 8;
  }

  lemma ExampleNames(p: char, a: string)
    requires IsWord(p) && a == Braced(p)
    ensures PlaceholderName(a) == [p]
  {
    assert a[2..3] == [p];
  }

  lemma ExampleFindAll(s: string, a: string, b: string)
    requires |a| == 5 && |b| == 5 && s == a + b
    requires MatchAt(s, 0) == Some(5) && MatchAt(s, 5) == Some(10)
    ensures FindAll(s, 0) == [a, b]
  {
    assert s[0..5] == a && s[5..10] == b;
    assert FindAll(s, 10) == [];
    assert FindAll(s, 5) == [b];
  }

  lemma ExampleReplaceSteps(a: string, b: string, na: string, nb: string, x: string, env: Environment)
    requires |a| == 5 && |b| == 5 && PlaceholderName(a) == na && PlaceholderName(b) == nb
    requires na in env && env[na] == b && nb in env && env[nb] == x
    ensures ReplaceItems(a + b, [a, b], env) == Ok(x + b)
  {
    var s := a + b;
    assert s[..|a|] == a && s[|a|..] == b;
    ReplaceAtStart(s, a, b);
    assert (b + b)[..|b|] == b && (b + b)[|b|..] == b;
    ReplaceAtStart(b + b, b, x);
    assert [a, b][1..] == [b];
    assert ReplaceItems(s, [a, b], env) == ReplaceItems(b + b, [b], env);
    assert ReplaceItems(b + b, [b], env) == ReplaceItems(x + b, [], env);
  }

  lemma ExampleExpand(s: string, b: string, na: string, nb: string, x: string, env: Environment)
    requires |s| == 10 && s[5..] == b
    requires MatchAt(s, 0) == Some(5) && MatchAt(s, 5) == Some(10)
    requires PlaceholderName(s[0..5]) == na && PlaceholderName(s[5..10]) == nb
    requires na in env && env[na] == b && nb in env && env[nb] == x
    ensures Expand(s, 0, env) == Ok(b + x)
  {
    assert Expand(s, 10, env) == Ok([]);
    assert x + [] == x;
    assert Expand(s, 5, env) == Ok(x);
  }

  /** Replacing a target the string starts with. */
  lemma ReplaceAtStart(t: string, target: string, replacement: string)
    requires target != [] && |target| <= |t| && t[..|target|] == target
    ensures ReplaceFirst(t, target, replacement) == replacement + t[|target|..]
  {
    ReplaceFirstAfterPrefix([], t, target, replacement);
    assert [] + t == t;
    assert [] + replacement == replacement;
  }
}
