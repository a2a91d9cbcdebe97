/**
 * The signature parser (nodejs/expand.js). A call signature `#17 getSum(a:int,b:int) -> sum:int`
 * gives an id, a name and two field lists; an exception signature `#3 notFound(name:string)` an
 * id, a name and one. A field list is first cut into a tree at parentheses and commas
 * (`expandParenthesis`), then each level of the tree is read as fields (`expandLevel`), each with
 * its letters in the compact format string.
 */
module Expand {
  import opened Basics
  import opened Formats

  const InvalidFormat: JsError := PlainError("Invalid format")
  const Mismatch: JsError := PlainError("Parenthesis mismatch")

  // ---------------------------------------------------------------------------------------------
  // Characters

  /** The characters of the JavaScript class `\s`: ASCII white space, line terminators and the
      Unicode space separators. */
  predicate IsSpace(c: char)
  {
    c == ' ' || c == '\t' || c == '\n' || c == '\r' || c == '\U{000B}' || c == '\U{000C}'
    || c == '\U{00A0}' || c == '\U{1680}' || ('\U{2000}' <= c <= '\U{200A}')
    || c == '\U{2028}' || c == '\U{2029}' || c == '\U{202F}' || c == '\U{205F}'
    || c == '\U{3000}' || c == '\U{FEFF}'
  }

  predicate IsDigit(c: char)
  {
    '0' <= c <= '9'
  }

  /** `[a-zA-Z0-9_]`: a character an identifier may continue with. */
  predicate IsWordChar(c: char)
  {
    'a' <= c <= 'z' || 'A' <= c <= 'Z' || IsDigit(c) || c == '_'
  }

  /** `[a-zA-Z_][a-zA-Z0-9_]*`. */
  predicate IsIdentifier(s: string)
  {
    s != [] && !IsDigit(s[0]) && forall i :: 0 <= i < |s| ==> IsWordChar(s[i])
  }

  /** The characters that cut a field list: they never end up in a tree's text. */
  predicate IsSeparator(c: char)
  {
    c == '(' || c == ')' || c == ','
  }

  // ---------------------------------------------------------------------------------------------
  // White space

  /** `str.replace(/\s/g, "")`. */
  function StripSpaces(s: string): (r: string)
    ensures |r| <= |s|
    ensures forall i :: 0 <= i < |r| ==> !IsSpace(r[i])
  {
    if s == [] then []
    else (if IsSpace(s[0]) then [] else [s[0]]) + StripSpaces(s[1..])
  }

  /** Stripping keeps a string without white space as it is, so stripping twice is stripping once. */
  lemma {:induction false} StripSpacesKeeps(s: string)
    requires forall i :: 0 <= i < |s| ==> !IsSpace(s[i])
    ensures StripSpaces(s) == s
  {
    if s != [] {
      StripSpacesKeeps(s[1..]);
      assert [s[0]] + s[1..] == s;
    }
  }

  lemma StripSpacesIdempotent(s: string)
    ensures StripSpaces(StripSpaces(s)) == StripSpaces(s)
  {
    StripSpacesKeeps(StripSpaces(s));
  }

  /** Stripping works piece by piece. */
  lemma {:induction false} StripSpacesAppend(a: string, b: string)
    ensures StripSpaces(a + b) == StripSpaces(a) + StripSpaces(b)
  {
    if a != [] {
      var c := a + b;
      assert c[0] == a[0] && c[1..] == a[1..] + b;
      StripSpacesAppend(a[1..], b);
      Associative(if IsSpace(a[0]) then [] else [a[0]], StripSpaces(a[1..]), StripSpaces(b));
    } else {
      assert a + b == b;
    }
  }

  // ---------------------------------------------------------------------------------------------
  // Decimal ids

  /** `Number(digits)` for a string of decimal digits. */
  function DecimalValue(s: string): nat
    requires forall i :: 0 <= i < |s| ==> IsDigit(s[i])
  {
    if s == [] then 0 else 10 * DecimalValue(s[..|s| - 1]) + DigitValue(s[|s| - 1])
  }

  function DigitValue(c: char): nat
    requires IsDigit(c)
  {
    c as int - '0' as int
  }

  /** The decimal digits of n, without leading zeros. */
  function Decimal(n: nat): (s: string)
    ensures s != [] && forall i :: 0 <= i < |s| ==> IsDigit(s[i])
  {
    (if n >= 10 then Decimal(n / 10) else []) + [('0' as int + n % 10) as char]
  }

  lemma {:induction false} DecimalLeading(n: nat)
    requires n >= 1
    ensures Decimal(n)[0] != '0'
  {
    if n >= 10 {
      DecimalLeading(n / 10);
    }
  }

  /** Reading the digits of n gives n back. */
  lemma {:induction false} DecimalRoundTrip(n: nat)
    ensures DecimalValue(Decimal(n)) == n
  {
    var s := Decimal(n);
    assert s[..|s| - 1] == if n >= 10 then Decimal(n / 10) else [];
    if n >= 10 {
      DecimalRoundTrip(n / 10);
    }
  }

  // ---------------------------------------------------------------------------------------------
  // The header `#id name`

  /** Number of characters satisfying `digit` (or `word`) from position i on. */
  function DigitRun(s: string, i: nat): (n: nat)
    requires i <= |s|
    ensures i + n <= |s| && forall j :: i <= j < i + n ==> IsDigit(s[j])
    ensures i + n == |s| || !IsDigit(s[i + n])
    decreases |s| - i
  {
    if i < |s| && IsDigit(s[i]) then 1 + DigitRun(s, i + 1) else 0
  }

  function WordRun(s: string, i: nat): (n: nat)
    requires i <= |s|
    ensures i + n <= |s| && forall j :: i <= j < i + n ==> IsWordChar(s[j])
    ensures i + n == |s| || !IsWordChar(s[i + n])
    decreases |s| - i
  {
    if i < |s| && IsWordChar(s[i]) then 1 + WordRun(s, i + 1) else 0
  }

  /** `^#([1-9][0-9]*)([a-zA-Z_][a-zA-Z0-9_]*)`: the id, the name and the length matched. */
  datatype Header = Header(id: nat, name: string, length: nat)

  function HeaderOf(s: string): (r: Option<Header>)
    ensures r.Some? ==> r.value.id >= 1 && IsIdentifier(r.value.name) && r.value.length <= |s|
  {
    if !HeaderStart(s) then None
    else
      var d := DigitRun(s, 1);
      var w := WordRun(s, 1 + d);
      if w == 0 then None else HeaderFrom(s[1 .. 1 + d], s[1 + d .. 1 + d + w])
  }

  /** `#` and a digit other than 0. */
  predicate HeaderStart(s: string)
  {
    |s| >= 2 && s[0] == '#' && '1' <= s[1] <= '9'
  }

  /** The header made of an id's digits and a name. */
  function HeaderFrom(digits: string, name: string): (r: Option<Header>)
    requires digits != [] && digits[0] != '0' && forall i :: 0 <= i < |digits| ==> IsDigit(digits[i])
    ensures r.Some? && r.value.id >= 1 && r.value.name == name && r.value.length == 1 + |digits| + |name|
  {
    LeadingDigit(digits);
    Some(Header(DecimalValue(digits), name, 1 + |digits| + |name|))
  }

  /** A digit string that does not start with 0 denotes a positive number. */
  lemma {:induction false} LeadingDigit(s: string)
    requires s != [] && forall i :: 0 <= i < |s| ==> IsDigit(s[i])
    requires s[0] != '0'
    ensures DecimalValue(s) >= 1
  {
    if |s| > 1 {
      LeadingDigit(s[..|s| - 1]);
    }
  }

  lemma {:induction false} DigitRunOf(s: string, i: nat, n: nat)
    requires i + n <= |s| && forall j :: i <= j < i + n ==> IsDigit(s[j])
    requires i + n == |s| || !IsDigit(s[i + n])
    ensures DigitRun(s, i) == n
    decreases n
  {
    if n > 0 {
      DigitRunOf(s, i + 1, n - 1);
    }
  }

  lemma {:induction false} WordRunOf(s: string, i: nat, n: nat)
    requires i + n <= |s| && forall j :: i <= j < i + n ==> IsWordChar(s[j])
    requires i + n == |s| || !IsWordChar(s[i + n])
    ensures WordRun(s, i) == n
    decreases n
  {
    if n > 0 {
      WordRunOf(s, i + 1, n - 1);
    }
  }

  /** The header of `#` + digits + name, followed by anything that does not continue the name,
      is the number the digits denote and the name. */
  lemma HeaderOfParts(digits: string, name: string, rest: string)
    requires digits != [] && digits[0] != '0' && forall i :: 0 <= i < |digits| ==> IsDigit(digits[i])
    requires IsIdentifier(name)
    requires rest == [] || !IsWordChar(rest[0])
    ensures HeaderOf("#" + digits + name + rest) == Some(Header(DecimalValue(digits), name, 1 + |digits| + |name|))
  {
    HeaderPieces("#", digits, name, rest);
    NonzeroDigit(digits[0]);
    HeaderOfRuns("#" + digits + name + rest, digits, name);
  }

  lemma NonzeroDigit(c: char)
    requires IsDigit(c) && c != '0'
    ensures '1' <= c <= '9'
  {
  }

  /** The header read off runs of known contents. */
  lemma HeaderOfRuns(s: string, digits: string, name: string)
    requires HeaderStart(s)
    requires DigitRun(s, 1) == |digits| && WordRun(s, 1 + |digits|) == |name| && name != []
    requires s[1 .. 1 + |digits|] == digits && s[1 + |digits| .. 1 + |digits| + |name|] == name
    ensures HeaderOf(s) == Some(Header(DecimalValue(digits), name, 1 + |digits| + |name|))
  {
  }

  /** The runs of digits and of word characters in `p + digits + name + rest`. */
  lemma HeaderPieces(p: string, digits: string, name: string, rest: string)
    requires digits != [] && forall i :: 0 <= i < |digits| ==> IsDigit(digits[i])
    requires IsIdentifier(name)
    requires rest == [] || !IsWordChar(rest[0])
    ensures DigitRun(p + digits + name + rest, |p|) == |digits|
    ensures WordRun(p + digits + name + rest, |p| + |digits|) == |name|
    ensures (p + digits + name + rest)[|p| .. |p| + |digits|] == digits
    ensures (p + digits + name + rest)[|p| + |digits| .. |p| + |digits| + |name|] == name
    ensures (p + digits + name + rest)[|p|] == digits[0]
    ensures p != [] ==> (p + digits + name + rest)[0] == p[0]
  {
    var s := p + digits + name + rest;
    Associative(p, digits, name + rest);
    Associative(p + digits, name, rest);
    Middle(p, digits, name + rest);
    Middle(p + digits, name, rest);
    assert s[|p| + |digits|] == name[0];
    DigitRunOf(s, |p|, |digits|);
    WordRunOf(s, |p| + |digits|, |name|);
  }

  /** Where the middle piece of a + b + c sits. */
  lemma Middle(a: string, b: string, c: string)
    ensures (a + (b + c))[|a| .. |a| + |b|] == b
    ensures forall j :: |a| <= j < |a| + |b| ==> (a + (b + c))[j] == b[j - |a|]
    ensures |a| + |b| < |a + (b + c)| ==> (a + (b + c))[|a| + |b|] == c[0]
  {
  }

  // ---------------------------------------------------------------------------------------------
  // After the header

  /** `->` at position i. */
  predicate ArrowAt(s: string, i: nat)
  {
    i + 2 <= |s| && s[i] == '-' && s[i + 1] == '>'
  }

  /** The least j >= i with s[j] == ')' that ends the string or is followed by `->`: where the
      lazy `\(.*?\)` of a call signature stops. */
  function CallClose(s: string, i: nat): (r: Option<nat>)
    requires i <= |s|
    ensures r.Some? ==> i <= r.value < |s| && s[r.value] == ')' && (r.value + 1 == |s| || ArrowAt(s, r.value + 1))
    ensures r.Some? ==> forall j :: i <= j < r.value && s[j] == ')' ==> !(j + 1 == |s| || ArrowAt(s, j + 1))
    ensures r.None? ==> forall j :: i <= j < |s| && s[j] == ')' ==> !(j + 1 == |s| || ArrowAt(s, j + 1))
    decreases |s| - i
  {
    if i == |s| then None
    else if s[i] == ')' && (i + 1 == |s| || ArrowAt(s, i + 1)) then Some(i)
    else CallClose(s, i + 1)
  }

  /** `^(\(.*?\))?(->.*?)?$` on what follows a call's header: the text of the arguments and of the
      results, each "" when its part is absent. */
  function CallParts(s: string): (r: Option<(string, string)>)
  {
    if s == [] then Some(("", ""))
    else if ArrowAt(s, 0) then Some(("", s[2..]))
    else if s[0] != '(' then None
    else match CallClose(s, 1)
      case None => None
      case Some(j) => Some((s[1 .. j], if j + 1 == |s| then "" else s[j + 3 ..]))
  }

  /** A string without `->`. */
  predicate NoArrow(s: string)
  {
    forall i :: 0 <= i < |s| ==> !ArrowAt(s, i)
  }

  /** The parts of `(args)->results` and of `(args)` are args and results, when args holds no
      `->` (no field list does). */
  lemma CallPartsRoundTrip(args: string, results: string)
    requires NoArrow(args)
    ensures CallParts("(" + args + ")" + "->" + results) == Some((args, results))
    ensures CallParts("(" + args + ")") == Some((args, ""))
  {
    var close := 1 + |args|;
    var s := "(" + args + ")" + "->" + results;
    var t := "(" + args + ")";
    forall j | 1 <= j < close && s[j] == ')' ensures !(j + 1 == |s| || ArrowAt(s, j + 1)) {
      assert s[j] == args[j - 1];
      if j + 1 < close {
        assert s[j + 1] == args[j] && s[j + 2] == (args + ")")[j + 1];
        assert !ArrowAt(args, j);
      }
    }
    forall j | 1 <= j < close && t[j] == ')' ensures !(j + 1 == |t| || ArrowAt(t, j + 1)) {
      assert t[j] == args[j - 1];
      if j + 1 < close {
        assert t[j + 1] == args[j] && t[j + 2] == (args + ")")[j + 1];
        assert !ArrowAt(args, j);
      }
    }
    CloseIs(s, 1, close);
    CloseIs(t, 1, close);
    assert s[1 .. close] == args && s[close + 3 ..] == results;
    assert t[1 .. close] == args;
  }

  lemma {:induction false} CloseIs(s: string, i: nat, j: nat)
    requires i <= j < |s| && s[j] == ')' && (j + 1 == |s| || ArrowAt(s, j + 1))
    requires forall k :: i <= k < j && s[k] == ')' ==> !(k + 1 == |s| || ArrowAt(s, k + 1))
    ensures CallClose(s, i) == Some(j)
    decreases j - i
  {
    if i < j {
      CloseIs(s, i + 1, j);
    }
  }

  /** The first ')' from position i on: where the lazy `\(.*?\)` of an exception signature stops,
      since nothing is required after it. */
  function FirstClose(s: string, i: nat): (r: Option<nat>)
    requires i <= |s|
    ensures r.Some? ==> i <= r.value < |s| && s[r.value] == ')'
    ensures r.Some? ==> forall j :: i <= j < r.value ==> s[j] != ')'
    ensures r.None? ==> forall j :: i <= j < |s| ==> s[j] != ')'
    decreases |s| - i
  {
    if i == |s| then None else if s[i] == ')' then Some(i) else FirstClose(s, i + 1)
  }

  /** The optional `(\(.*?\))?` of an exception signature: the text up to the first ')', or ""
      when there is no '(' or no ')'. Whatever follows is ignored. */
  function ExceptionArgs(s: string): string
  {
    if s == [] || s[0] != '(' then ""
    else match FirstClose(s, 1)
      case None => ""
      case Some(j) => s[1 .. j]
  }

  // ---------------------------------------------------------------------------------------------
  // expandParenthesis

  /** The tree of a field list: strings between separators, and arrays for parenthesised groups. */
  datatype Tree = Leaf(text: string) | Group(items: seq<Tree>)

  /** The text of a tree: its strings in order. */
  function Text(ts: seq<Tree>): string
    decreases ts, 1
  {
    if ts == [] then [] else TreeText(ts[0]) + Text(ts[1..])
  }

  function TreeText(t: Tree): string
    decreases t, 0
  {
    match t
    case Leaf(x) => x
    case Group(items) => Text(items)
  }

  lemma {:induction false} TextAppend(a: seq<Tree>, b: seq<Tree>)
    ensures Text(a + b) == Text(a) + Text(b)
  {
    if a == [] {
      assert a + b == b;
    } else {
      var c := a + b;
      assert c[0] == a[0] && c[1..] == a[1..] + b;
      TextAppend(a[1..], b);
      Associative(TreeText(a[0]), Text(a[1..]), Text(b));
    }
  }

  /** The text of the levels still open, outermost first. */
  function StackText(stack: seq<seq<Tree>>): string
  {
    if stack == [] then [] else StackText(stack[..|stack| - 1]) + Text(stack[|stack| - 1])
  }

  /** Every string of a tree is nonempty and holds no separator. */
  predicate Clean(ts: seq<Tree>)
    decreases ts, 1
  {
    forall i :: 0 <= i < |ts| ==> CleanTree(ts[i])
  }

  predicate CleanTree(t: Tree)
    decreases t, 0
  {
    match t
    case Leaf(x) => Plain(x) && x != []
    case Group(items) => Clean(items)
  }

  predicate Plain(s: string)
  {
    forall i :: 0 <= i < |s| ==> !IsSeparator(s[i])
  }

  /** The characters of s that are not separators. */
  function Content(s: string): string
  {
    if s == [] then []
    else Content(s[..|s| - 1]) + (if IsSeparator(s[|s| - 1]) then [] else [s[|s| - 1]])
  }

  /** The number of groups open after s, or None once a ')' closes nothing. */
  function Opened(s: string): Option<nat>
  {
    if s == [] then Some(0)
    else match Opened(s[..|s| - 1])
      case None => None
      case Some(d) =>
        if s[|s| - 1] == '(' then Some(d + 1)
        else if s[|s| - 1] == ')' then (if d == 0 then None else Some(d - 1))
        else Some(d)
  }

  /** Every ')' closes an earlier '(' and every '(' is closed. */
  predicate Balanced(s: string)
  {
    Opened(s) == Some(0)
  }

  /** Once a ')' closes nothing, no continuation is balanced. */
  lemma {:induction false} OpenedStaysNone(s: string, i: nat)
    requires i <= |s| && Opened(s[..i]) == None
    ensures Opened(s) == None
    decreases |s| - i
  {
    if i < |s| {
      assert s[..i + 1][..i] == s[..i];
      OpenedStaysNone(s, i + 1);
    } else {
      assert s[..i] == s;
    }
  }

  /** `saveCache`: a nonempty cache becomes the next string of the level. */
  function Saved(tree: seq<Tree>, cache: string): seq<Tree>
  {
    if cache != [] then tree + [Leaf(cache)] else tree
  }

  lemma SavedText(tree: seq<Tree>, cache: string)
    requires Clean(tree) && Plain(cache)
    ensures Text(Saved(tree, cache)) == Text(tree) + cache
    ensures Clean(Saved(tree, cache))
  {
    if cache != [] {
      TextAppend(tree, [Leaf(cache)]);
      assert Text([Leaf(cache)]) == cache + Text([]);
    }
  }

  /** One character of the scan: the prefix grows by it, in text and in open groups. */
  lemma ScanStep(s: string, i: nat)
    requires i < |s|
    ensures s[..i + 1][..i] == s[..i] && s[..i + 1][i] == s[i]
    ensures Content(s[..i + 1]) == Content(s[..i]) + (if IsSeparator(s[i]) then [] else [s[i]])
  {
    assert s[..i + 1][..i] == s[..i];
  }

  /** What the scan of expandParenthesis knows after the first i characters of s: the open groups
      match the parentheses read, and the levels still open, the current level and the cache
      spell out the characters read that are not separators. */
  predicate Scanned(s: string, i: nat, stack: seq<seq<Tree>>, tree: seq<Tree>, cache: string)
  {
    i <= |s|
    && Opened(s[..i]) == Some(|stack|)
    && (forall k :: 0 <= k < |stack| ==> Clean(stack[k]))
    && Clean(tree) && Plain(cache)
    && StackText(stack) + Text(tree) + cache == Content(s[..i])
  }

  /** A '(' saves the cache and opens a new level. */
  lemma OpenStep(s: string, i: nat, stack: seq<seq<Tree>>, tree: seq<Tree>, cache: string)
    requires i < |s| && s[i] == '(' && Scanned(s, i, stack, tree, cache)
    ensures Scanned(s, i + 1, stack + [Saved(tree, cache)], [], "")
  {
    ScanStep(s, i);
    SavedText(tree, cache);
    var saved := Saved(tree, cache);
    assert (stack + [saved])[..|stack|] == stack;
    assert StackText(stack + [saved]) == StackText(stack) + Text(saved);
  }

  /** A ')' saves the cache and closes the current level into its parent. */
  lemma CloseStep(s: string, i: nat, stack: seq<seq<Tree>>, tree: seq<Tree>, cache: string)
    requires i < |s| && s[i] == ')' && Scanned(s, i, stack, tree, cache) && stack != []
    ensures Scanned(s, i + 1, stack[..|stack| - 1], stack[|stack| - 1] + [Group(Saved(tree, cache))], "")
  {
    ScanStep(s, i);
    SavedText(tree, cache);
    var saved := Saved(tree, cache);
    var parent := stack[|stack| - 1];
    var up := stack[..|stack| - 1];
    var next := parent + [Group(saved)];
    var t := s[..i + 1];
    assert t[..|t| - 1] == s[..i] && t[|t| - 1] == ')';
    assert Opened(t) == Some(|up|);
    assert forall k :: 0 <= k < |up| ==> Clean(up[k]) by {
      assert forall k :: 0 <= k < |up| ==> up[k] == stack[k];
    }
    TextAppend(parent, [Group(saved)]);
    assert Text([Group(saved)]) == Text(saved) + Text([]);
    assert Text(next) == Text(parent) + Text(saved);
    assert StackText(stack) == StackText(up) + Text(parent);
    Associative(StackText(up), Text(parent), Text(saved));
    Associative(StackText(stack), Text(tree), cache);
    assert StackText(up) + Text(next) + "" == StackText(up) + Text(next);
    assert Clean(parent) && Clean([Group(saved)]);
    CleanAppend(parent, [Group(saved)]);
  }

  /** A ')' with no level open cannot be balanced. */
  lemma CloseNothing(s: string, i: nat, stack: seq<seq<Tree>>, tree: seq<Tree>, cache: string)
    requires i < |s| && s[i] == ')' && Scanned(s, i, stack, tree, cache) && stack == []
    ensures !Balanced(s)
  {
    ScanStep(s, i);
    OpenedStaysNone(s, i + 1);
  }

  /** A ',' saves the cache. */
  lemma CommaStep(s: string, i: nat, stack: seq<seq<Tree>>, tree: seq<Tree>, cache: string)
    requires i < |s| && s[i] == ',' && Scanned(s, i, stack, tree, cache)
    ensures Scanned(s, i + 1, stack, Saved(tree, cache), "")
  {
    ScanStep(s, i);
    SavedText(tree, cache);
  }

  /** Any other character goes to the cache. */
  lemma CharStep(s: string, i: nat, stack: seq<seq<Tree>>, tree: seq<Tree>, cache: string)
    requires i < |s| && !IsSeparator(s[i]) && Scanned(s, i, stack, tree, cache)
    ensures Scanned(s, i + 1, stack, tree, cache + [s[i]])
  {
    ScanStep(s, i);
  }

  /** At the end the cache is saved: the level is the whole text when no group is left open. */
  lemma EndStep(s: string, stack: seq<seq<Tree>>, tree: seq<Tree>, cache: string)
    requires Scanned(s, |s|, stack, tree, cache)
    ensures Balanced(s) <==> stack == []
    ensures stack == [] ==> Clean(Saved(tree, cache)) && Text(Saved(tree, cache)) == Content(s)
  {
    assert s[..|s|] == s;
    if stack == [] {
      assert StackText(stack) == [];
      assert [] + Text(tree) == Text(tree);
      SavedText(tree, cache);
    }
  }

  lemma Associative(a: string, b: string, c: string)
    ensures a + (b + c) == (a + b) + c
  {
  }

  lemma CleanAppend(a: seq<Tree>, b: seq<Tree>)
    requires Clean(a) && Clean(b)
    ensures Clean(a + b)
  {
    assert forall k :: 0 <= k < |a + b| ==> (a + b)[k] == if k < |a| then a[k] else b[k - |a|];
  }

  /** The scan of expandParenthesis as a function of what is left to read, the levels still
      open, the current level and the cache. */
  function Scan(s: string, stack: seq<seq<Tree>>, tree: seq<Tree>, cache: string): Result<seq<Tree>, JsError>
    decreases |s|
  {
    if s == [] then (if stack == [] then Ok(Saved(tree, cache)) else Err(Mismatch))
    else if s[0] == '(' then Scan(s[1..], stack + [Saved(tree, cache)], [], "")
    else if s[0] == ')' then
      if stack == [] then Err(Mismatch)
      else Scan(s[1..], stack[..|stack| - 1], stack[|stack| - 1] + [Group(Saved(tree, cache))], "")
    else if s[0] == ',' then Scan(s[1..], stack, Saved(tree, cache), "")
    else Scan(s[1..], stack, tree, cache + [s[0]])
  }

  /** The tree of a whole field list. */
  function Parse(s: string): Result<seq<Tree>, JsError>
  {
    Scan(s, [], [], "")
  }

  /** expandParenthesis: fails with "Parenthesis mismatch" exactly when the parentheses do not
      balance; otherwise its strings are nonempty, hold no separator, and spell out, in order,
      every character of s that is not a separator. */
  method ExpandParenthesis(s: string) returns (r: Result<seq<Tree>, JsError>)
    ensures r == Parse(s)
    ensures r.Err? <==> !Balanced(s)
    ensures r.Err? ==> r.error == Mismatch
    ensures r.Ok? ==> Clean(r.value) && Text(r.value) == Content(s)
  {
    var stack: seq<seq<Tree>> := [];
    var tree: seq<Tree> := [];
    var cache: string := "";
    var i := 0;
    assert s[0..] == s;
    while i < |s|
      invariant Scanned(s, i, stack, tree, cache)
      invariant Scan(s[i..], stack, tree, cache) == Parse(s)
    {
      var c := s[i];
      SuffixStep(s, i);
      if c == '(' {
        OpenStep(s, i, stack, tree, cache);
        stack := stack + [Saved(tree, cache)];
        tree := [];
        cache := "";
      } else if c == ')' {
        if stack == [] {
          CloseNothing(s, i, stack, tree, cache);
          return Err(Mismatch);
        }
        CloseStep(s, i, stack, tree, cache);
        tree := stack[|stack| - 1] + [Group(Saved(tree, cache))];
        stack := stack[..|stack| - 1];
        cache := "";
      } else if c == ',' {
        CommaStep(s, i, stack, tree, cache);
        tree := Saved(tree, cache);
        cache := "";
      } else {
        CharStep(s, i, stack, tree, cache);
        cache := cache + [c];
      }
      i := i + 1;
    }
    EndStep(s, stack, tree, cache);
    assert s[i..] == [];
    tree := Saved(tree, cache);
    if stack != [] {
      return Err(Mismatch);
    }
    return Ok(tree);
  }

  /** The rest of s from i starts with s[i], then the rest from i + 1. */
  lemma SuffixStep(s: string, i: nat)
    requires i < |s|
    ensures s[i..] != [] && s[i..][0] == s[i] && s[i..][1..] == s[i + 1..]
  {
  }

  // ---------------------------------------------------------------------------------------------
  // A tree written back as text

  /** The text a tree is written as: strings as they are, groups in parentheses, and a comma
      between two items unless the second is a group, whose '(' already cuts. */
  function Render(ts: seq<Tree>): string
    decreases ts, 1
  {
    if ts == [] then []
    else if |ts| == 1 then RenderTree(ts[0])
    else RenderTree(ts[0]) + (if ts[1].Group? then "" else ",") + Render(ts[1..])
  }

  function RenderTree(t: Tree): string
    decreases t, 0
  {
    match t
    case Leaf(x) => x
    case Group(items) => "(" + Render(items) + ")"
  }

  /** Where the scan stands once the text of ts is read from a level holding tree and an empty
      cache: a last string is still in the cache. */
  function Pending(tree: seq<Tree>, ts: seq<Tree>): (seq<Tree>, string)
  {
    if ts != [] && ts[|ts| - 1].Leaf? then (tree + ts[..|ts| - 1], ts[|ts| - 1].text) else (tree + ts, "")
  }

  /** Saving what is pending completes the level. */
  lemma PendingSaved(tree: seq<Tree>, ts: seq<Tree>)
    requires Clean(ts)
    ensures Saved(Pending(tree, ts).0, Pending(tree, ts).1) == tree + ts
  {
    if ts != [] && ts[|ts| - 1].Leaf? {
      assert CleanTree(ts[|ts| - 1]);
      assert ts[..|ts| - 1] + [ts[|ts| - 1]] == ts;
    }
  }

  /** Characters without separators go to the cache one by one. */
  lemma {:induction false} ScanPlain(x: string, rest: string, stack: seq<seq<Tree>>, tree: seq<Tree>, cache: string)
    requires Plain(x)
    ensures Scan(x + rest, stack, tree, cache) == Scan(rest, stack, tree, cache + x)
    decreases |x|
  {
    if x != [] {
      var s := x + rest;
      assert s[0] == x[0] && s[1..] == x[1..] + rest;
      assert !IsSeparator(x[0]);
      ScanPlain(x[1..], rest, stack, tree, cache + [x[0]]);
      assert cache + [x[0]] + x[1..] == cache + x;
    } else {
      assert x + rest == rest && cache + x == cache;
    }
  }

  /** One separator read by the scan. */
  lemma ScanOpen(x: string, stack: seq<seq<Tree>>, tree: seq<Tree>, cache: string)
    ensures Scan("(" + x, stack, tree, cache) == Scan(x, stack + [Saved(tree, cache)], [], "")
  {
    assert ("(" + x)[0] == '(' && ("(" + x)[1..] == x;
  }

  lemma ScanClose(x: string, stack: seq<seq<Tree>>, parent: seq<Tree>, tree: seq<Tree>, cache: string)
    ensures Scan(")" + x, stack + [parent], tree, cache) == Scan(x, stack, parent + [Group(Saved(tree, cache))], "")
  {
    var up := stack + [parent];
    assert (")" + x)[0] == ')' && (")" + x)[1..] == x;
    assert up[..|up| - 1] == stack && up[|up| - 1] == parent;
  }

  lemma ScanComma(x: string, stack: seq<seq<Tree>>, tree: seq<Tree>, cache: string)
    ensures Scan("," + x, stack, tree, cache) == Scan(x, stack, Saved(tree, cache), "")
  {
    assert ("," + x)[0] == ',' && ("," + x)[1..] == x;
  }

  /** Reading the text of clean trees adds them to the level, the last string pending. */
  lemma {:induction false} ScanRender(ts: seq<Tree>, rest: string, stack: seq<seq<Tree>>, tree: seq<Tree>)
    requires Clean(ts)
    ensures Scan(Render(ts) + rest, stack, tree, "") == Scan(rest, stack, Pending(tree, ts).0, Pending(tree, ts).1)
    decreases ts, 1
  {
    if ts == [] {
      assert Render(ts) + rest == rest && tree + ts == tree;
    } else if |ts| == 1 {
      assert CleanTree(ts[0]);
      ScanRenderTree(ts[0], rest, stack, tree);
      assert [ts[0]] == ts;
    } else {
      var t, more := ts[0], ts[1..];
      assert CleanTree(t);
      assert Clean(more) by {
        assert forall k :: 0 <= k < |more| ==> more[k] == ts[k + 1];
      }
      assert Render(ts) == RenderTree(t) + (if more[0].Group? then "" else ",") + Render(more);
      ScanRenderNext(t, more, rest, stack, tree);
      ScanRender(more, rest, stack, tree + [t]);
      PendingAppend(tree, t, more);
      assert ts == [t] + more;
    }
  }

  /** After one item, what is read next starts from a saved level. */
  lemma ScanRenderNext(t: Tree, more: seq<Tree>, rest: string, stack: seq<seq<Tree>>, tree: seq<Tree>)
    requires CleanTree(t) && Clean(more) && more != []
    ensures Scan(RenderTree(t) + (if more[0].Group? then "" else ",") + Render(more) + rest, stack, tree, "")
         == Scan(Render(more) + rest, stack, tree + [t], "")
    decreases t, 1
  {
    var next := Render(more) + rest;
    PendingSaved(tree, [t]);
    var p := Pending(tree, [t]);
    if more[0].Group? {
      RenderOpens(more);
      GroupNext(RenderTree(t), Render(more), rest);
      ScanRenderTree(t, next, stack, tree);
      ScanOpen(next[1..], stack, p.0, p.1);
      ScanOpen(next[1..], stack, tree + [t], "");
    } else {
      CommaNext(RenderTree(t), Render(more), rest);
      ScanRenderTree(t, "," + next, stack, tree);
      ScanComma(next, stack, p.0, p.1);
    }
  }

  /** A group item that follows is written right after, starting with its '('. */
  lemma GroupNext(x: string, y: string, rest: string)
    requires y != [] && y[0] == '('
    ensures var next := y + rest;
      next != [] && next == "(" + next[1..] && x + "" + y + rest == x + next
  {
    var next := y + rest;
    assert next[0] == '(';
    assert x + "" + y + rest == x + next;
  }

  /** The text of items that start with a group starts with '('. */
  lemma RenderOpens(ts: seq<Tree>)
    requires ts != [] && ts[0].Group?
    ensures Render(ts) != [] && Render(ts)[0] == '('
  {
  }

  /** A leaf item that follows is written after a ','. */
  lemma CommaNext(x: string, y: string, rest: string)
    ensures x + "," + y + rest == x + ("," + (y + rest))
  {
  }

  lemma PendingAppend(tree: seq<Tree>, t: Tree, more: seq<Tree>)
    requires more != []
    ensures Pending(tree + [t], more) == Pending(tree, [t] + more)
  {
    var ts := [t] + more;
    assert (tree + [t]) + more == tree + ts;
    assert ts[|ts| - 1] == more[|more| - 1];
    assert (tree + [t]) + more[..|more| - 1] == tree + ts[..|ts| - 1];
  }

  lemma {:induction false} ScanRenderTree(t: Tree, rest: string, stack: seq<seq<Tree>>, tree: seq<Tree>)
    requires CleanTree(t)
    ensures Scan(RenderTree(t) + rest, stack, tree, "") == Scan(rest, stack, Pending(tree, [t]).0, Pending(tree, [t]).1)
    decreases t, 0
  {
    match t {
    case Leaf(x) =>
      ScanPlain(x, rest, stack, tree, "");
      assert [t][..0] == [] && tree + [] == tree && "" + x == x;
    case Group(items) =>
      assert RenderTree(t) + rest == "(" + (Render(items) + (")" + rest));
      ScanOpen(Render(items) + (")" + rest), stack, tree, "");
      assert Saved(tree, "") == tree;
      ScanRender(items, ")" + rest, stack + [tree], []);
      var p := Pending([], items);
      ScanClose(rest, stack, tree, p.0, p.1);
      PendingSaved([], items);
      assert [] + items == items;
    }
  }

  /** Reading back the text of clean trees gives the trees. */
  lemma ParseRender(ts: seq<Tree>)
    requires Clean(ts)
    ensures Parse(Render(ts)) == Ok(ts)
  {
    ScanRender(ts, "", [], []);
    assert Render(ts) + "" == Render(ts);
    PendingSaved([], ts);
    assert [] + ts == ts;
  }

  // ---------------------------------------------------------------------------------------------
  // expandLevel

  /** The type names a scalar field may carry. */
  function TypeName(t: Scalar): string
  {
    match t
    case UintT => "uint"
    case IntT => "int"
    case FloatT => "float"
    case StringT => "string"
    case TokenT => "token"
    case BufferT => "Buffer"
    case BooleanT => "boolean"
  }

  /** `(uint|int|float|string|token|Buffer|boolean)$`. */
  function TypeOf(s: string): (r: Option<Scalar>)
    ensures r.Some? ==> TypeName(r.value) == s
  {
    if s == "uint" then Some(UintT)
    else if s == "int" then Some(IntT)
    else if s == "float" then Some(FloatT)
    else if s == "string" then Some(StringT)
    else if s == "token" then Some(TokenT)
    else if s == "Buffer" then Some(BufferT)
    else if s == "boolean" then Some(BooleanT)
    else None
  }

  /** Every type name is read back as its type. */
  lemma TypeOfName(t: Scalar)
    ensures TypeOf(TypeName(t)) == Some(t)
  {
  }

  /** The letter a type adds to a format is the first character of its name. */
  lemma LetterIsInitial(t: Scalar)
    ensures Letter(t) == TypeName(t)[0]
  {
  }

  /** `^([a-zA-Z_][a-zA-Z0-9_]*)(\[\])?:(type)$`: a scalar field or a simple array. */
  function SimpleField(s: string): (r: Option<Field>)
    ensures r.Some? ==> !r.value.RecordArray? && IsIdentifier(r.value.name)
  {
    var n := WordRun(s, 0);
    if n == 0 || IsDigit(s[0]) then None else Typed(s[..n], s[n..])
  }

  /** What follows the name of a simple field: `[]:type` or `:type`. */
  function Typed(name: string, rest: string): (r: Option<Field>)
    ensures r.Some? ==> !r.value.RecordArray? && r.value.name == name
  {
    if |rest| >= 3 && rest[..3] == "[]:" then
      match TypeOf(rest[3..])
      case Some(t) => Some(SimpleArray(name, t))
      case None => None
    else if rest != [] && rest[0] == ':' then
      match TypeOf(rest[1..])
      case Some(t) => Some(Single(name, t))
      case None => None
    else None
  }

  /** `^[a-zA-Z_][a-zA-Z0-9_]*\[\]:$`: the head of a record array, with its name. */
  function ArrayHead(s: string): (r: Option<string>)
    ensures r.Some? ==> IsIdentifier(r.value) && s == r.value + "[]:"
  {
    if |s| > 3 && s[|s| - 3 ..] == "[]:" && IsIdentifier(s[..|s| - 3]) then Some(s[..|s| - 3]) else None
  }

  /** The fields of one level of a tree, read from the front: a string that is a simple field,
      or a record array head followed by a group. Anything else is "Invalid format". */
  function Fields(tree: seq<Tree>): Result<seq<Field>, JsError>
    decreases tree
  {
    if tree == [] then Ok([])
    else match tree[0]
      case Group(_) => Err(InvalidFormat)
      case Leaf(text) =>
        match SimpleField(text)
        case Some(f) => Prepend(f, Fields(tree[1..]))
        case None =>
          match ArrayHead(text)
          case None => Err(InvalidFormat)
          case Some(name) =>
            if |tree| < 2 || !tree[1].Group? then Err(InvalidFormat)
            else match Fields(tree[1].items)
              case Err(e) => Err(e)
              case Ok(inner) => Prepend(RecordArray(name, inner), Fields(tree[2..]))
  }

  function Prepend(f: Field, rest: Result<seq<Field>, JsError>): Result<seq<Field>, JsError>
  {
    match rest
    case Ok(fs) => Ok([f] + fs)
    case Err(e) => Err(e)
  }

  /** Fields already read, then the fields of what is left. */
  function After(done: seq<Field>, rest: Result<seq<Field>, JsError>): Result<seq<Field>, JsError>
  {
    match rest
    case Ok(fs) => Ok(done + fs)
    case Err(e) => Err(e)
  }

  /** Every failure of Fields is "Invalid format". */
  lemma {:induction false} FieldsError(tree: seq<Tree>)
    ensures Fields(tree).Err? ==> Fields(tree).error == InvalidFormat
    decreases tree
  {
    if tree != [] && tree[0].Leaf? {
      if SimpleField(tree[0].text).Some? {
        FieldsError(tree[1..]);
      } else if ArrayHead(tree[0].text).Some? && |tree| >= 2 && tree[1].Group? {
        FieldsError(tree[1].items);
        FieldsError(tree[2..]);
      }
    }
  }

  lemma {:induction false} FormatSnoc(fs: seq<Field>, f: Field)
    ensures FormatString(fs + [f]) == FormatString(fs) + FieldFormat(f)
    decreases |fs|
  {
    if fs == [] {
      assert FormatString([f]) == FieldFormat(f) + FormatString([]);
    } else {
      var g := fs + [f];
      assert g[0] == fs[0] && g[1..] == fs[1..] + [f];
      FormatSnoc(fs[1..], f);
      Associative(FieldFormat(fs[0]), FormatString(fs[1..]), FieldFormat(f));
    }
  }

  lemma AfterNothing(rest: Result<seq<Field>, JsError>)
    ensures After([], rest) == rest
  {
    if rest.Ok? {
      assert [] + rest.value == rest.value;
    }
  }

  /** One field read by the loop of expandLevel: it joins those already read. */
  lemma AfterStep(done: seq<Field>, f: Field, rest: Result<seq<Field>, JsError>)
    ensures After(done, Prepend(f, rest)) == After(done + [f], rest)
  {
    if rest.Ok? {
      assert done + ([f] + rest.value) == (done + [f]) + rest.value;
    }
  }

  /** expandLevel: reads the fields of one level in order, skipping the group that follows a
      record array head; the format it builds alongside is the format string of the fields. */
  method ExpandLevel(tree: seq<Tree>) returns (r: Result<(seq<Field>, string), JsError>)
    ensures r.Ok? <==> Fields(tree).Ok?
    ensures r.Ok? ==> r.value.0 == Fields(tree).value && r.value.1 == FormatString(r.value.0)
    ensures r.Err? ==> r.error == InvalidFormat
    decreases tree
  {
    FieldsError(tree);
    var fields: seq<Field> := [];
    var format := "";
    var i := 0;
    assert tree[0..] == tree;
    AfterNothing(Fields(tree));
    while i < |tree|
      invariant 0 <= i <= |tree|
      invariant After(fields, Fields(tree[i..])) == Fields(tree)
      invariant format == FormatString(fields)
    {
      var rest := tree[i..];
      assert rest[0] == tree[i] && rest[1..] == tree[i + 1..];
      if !tree[i].Leaf? {
        return Err(InvalidFormat);
      }
      var text := tree[i].text;
      var simple := SimpleField(text);
      if simple.Some? {
        AfterStep(fields, simple.value, Fields(tree[i + 1..]));
        FormatSnoc(fields, simple.value);
        fields := fields + [simple.value];
        format := format + FieldFormat(simple.value);
        i := i + 1;
        continue;
      }
      var head := ArrayHead(text);
      if head.None? || i + 1 >= |tree| || !tree[i + 1].Group? {
        return Err(InvalidFormat);
      }
      assert rest[1] == tree[i + 1] && rest[2..] == tree[i + 2..];
      var inner := ExpandLevel(tree[i + 1].items);
      if inner.Err? {
        return Err(inner.error);
      }
      var f := RecordArray(head.value, inner.value.0);
      var piece := "(" + inner.value.1 + ")";
      assert piece == FieldFormat(f);
      AfterStep(fields, f, Fields(tree[i + 2..]));
      FormatSnoc(fields, f);
      fields := fields + [f];
      format := format + piece;
      i := i + 2;
    }
    assert fields + [] == fields;
    return Ok((fields, format));
  }

  // ---------------------------------------------------------------------------------------------
  // Fields back to a tree

  /** Fields whose names are identifiers, at every level. */
  predicate Named(fs: seq<Field>)
    decreases fs, 1
  {
    forall i :: 0 <= i < |fs| ==> NamedField(fs[i])
  }

  predicate NamedField(f: Field)
    decreases f, 0
  {
    IsIdentifier(f.name) && (f.RecordArray? ==> Named(f.fields))
  }

  /** The tree a field list is written as: `name:type`, `name[]:type`, or `name[]:` followed by
      the group of the record's fields. */
  function Trees(fs: seq<Field>): seq<Tree>
    decreases fs, 1
  {
    if fs == [] then [] else FieldTrees(fs[0]) + Trees(fs[1..])
  }

  function FieldTrees(f: Field): seq<Tree>
    decreases f, 0
  {
    match f
    case Single(name, t) => [Leaf(name + ":" + TypeName(t))]
    case SimpleArray(name, t) => [Leaf(name + "[]:" + TypeName(t))]
    case RecordArray(name, inner) => [Leaf(name + "[]:"), Group(Trees(inner))]
  }

  lemma WordRunIdentifier(name: string, rest: string)
    requires IsIdentifier(name) && rest != [] && !IsWordChar(rest[0])
    ensures WordRun(name + rest, 0) == |name|
  {
    var s := name + rest;
    assert forall j :: 0 <= j < |name| ==> s[j] == name[j];
    assert s[|name|] == rest[0];
    WordRunOf(s, 0, |name|);
  }

  /** A name, then a separator that cannot continue it, then the rest: the name is all the
      word characters the text starts with. */
  lemma NameThen(name: string, sep: string, rest: string)
    requires IsIdentifier(name) && sep != [] && !IsWordChar(sep[0])
    ensures WordRun(name + sep + rest, 0) == |name|
    ensures (name + sep + rest)[..|name|] == name && (name + sep + rest)[|name|..] == sep + rest
  {
    assert name + sep + rest == name + (sep + rest);
    WordRunIdentifier(name, sep + rest);
  }

  /** A text that starts with an identifier and goes on with a non-word character. */
  lemma SimpleFieldAt(s: string, name: string)
    requires IsIdentifier(name) && WordRun(s, 0) == |name| && s[..|name|] == name
    ensures SimpleField(s) == Typed(name, s[|name|..])
  {
    assert s[0] == name[0];
  }

  lemma SingleFieldOf(name: string, t: Scalar)
    requires IsIdentifier(name)
    ensures SimpleField(name + ":" + TypeName(t)) == Some(Single(name, t))
  {
    NameThen(name, ":", TypeName(t));
    SimpleFieldAt(name + ":" + TypeName(t), name);
    SingleTyped(name, t);
  }

  lemma SingleTyped(name: string, t: Scalar)
    ensures Typed(name, ":" + TypeName(t)) == Some(Single(name, t))
  {
    var rest := ":" + TypeName(t);
    assert rest[1..] == TypeName(t);
    assert rest[0] == ':' && (|rest| >= 3 ==> rest[1] != ']');
    TypeOfName(t);
  }

  lemma SimpleArrayOf(name: string, t: Scalar)
    requires IsIdentifier(name)
    ensures SimpleField(name + "[]:" + TypeName(t)) == Some(SimpleArray(name, t))
  {
    NameThen(name, "[]:", TypeName(t));
    SimpleFieldAt(name + "[]:" + TypeName(t), name);
    ArrayTyped(name, t);
  }

  lemma ArrayTyped(name: string, t: Scalar)
    ensures Typed(name, "[]:" + TypeName(t)) == Some(SimpleArray(name, t))
  {
    var rest := "[]:" + TypeName(t);
    assert rest[..3] == "[]:" && rest[3..] == TypeName(t);
    TypeOfName(t);
  }

  lemma RecordHeadOf(name: string)
    requires IsIdentifier(name)
    ensures SimpleField(name + "[]:") == None
    ensures ArrayHead(name + "[]:") == Some(name)
  {
    var s := name + "[]:";
    WordRunIdentifier(name, "[]:");
    assert s[..|name|] == name && s[|name|..] == "[]:";
    SimpleFieldAt(s, name);
    assert Typed(name, "[]:") == None by {
      assert "[]:"[..3] == "[]:" && "[]:"[3..] == [];
    }
    assert s[|s| - 3 ..] == "[]:" && s[..|s| - 3] == name;
  }

  /** Reading back the tree of named fields gives the fields. */
  lemma {:induction false} TreesRoundTrip(fs: seq<Field>)
    requires Named(fs)
    ensures Fields(Trees(fs)) == Ok(fs)
    decreases fs
  {
    if fs != [] {
      var f := fs[0];
      assert NamedField(f);
      assert Named(fs[1..]) by {
        assert forall i :: 0 <= i < |fs[1..]| ==> fs[1..][i] == fs[i + 1];
      }
      TreesRoundTrip(fs[1..]);
      if f.RecordArray? {
        TreesRoundTrip(f.fields);
        FieldsOfRecord(f.name, f.fields, Trees(fs[1..]));
      } else {
        FieldsOfSimple(f, Trees(fs[1..]));
      }
      assert [f] + fs[1..] == fs;
    }
  }

  /** A simple field's string in front of a level. */
  lemma FieldsOfSimple(f: Field, rest: seq<Tree>)
    requires NamedField(f) && !f.RecordArray?
    ensures Fields(FieldTrees(f) + rest) == Prepend(f, Fields(rest))
  {
    if f.Single? {
      SingleFieldOf(f.name, f.scalar);
    } else {
      SimpleArrayOf(f.name, f.scalar);
    }
    var t := FieldTrees(f) + rest;
    assert t[0] == FieldTrees(f)[0] && t[1..] == rest;
  }

  /** A record array's head and group in front of a level. */
  lemma FieldsOfRecord(name: string, inner: seq<Field>, rest: seq<Tree>)
    requires IsIdentifier(name) && Fields(Trees(inner)) == Ok(inner)
    ensures Fields(FieldTrees(RecordArray(name, inner)) + rest) == Prepend(RecordArray(name, inner), Fields(rest))
  {
    RecordHeadOf(name);
    var t := [Leaf(name + "[]:"), Group(Trees(inner))] + rest;
    assert FieldTrees(RecordArray(name, inner)) + rest == t;
    assert t[0] == Leaf(name + "[]:") && t[1] == Group(Trees(inner)) && t[2..] == rest;
  }

  // ---------------------------------------------------------------------------------------------
  // The signatures

  datatype CallSignature = CallSignature(id: nat, name: string, args: seq<Field>, argsFormat: string,
                                         outArgs: seq<Field>, outArgsFormat: string)

  datatype ExceptionSignature = ExceptionSignature(id: nat, name: string, args: seq<Field>, argsFormat: string)

  /** The fields a field list stands for, with their format string. */
  function FieldList(s: string): Result<(seq<Field>, string), JsError>
  {
    match Parse(s)
    case Err(e) => Err(e)
    case Ok(tree) =>
      match Fields(tree)
      case Err(e) => Err(e)
      case Ok(fs) => Ok((fs, FormatString(fs)))
  }

  /** The text a list of fields is written as: `a:int,tags[]:string,list[]:(b:uint)`. */
  function FieldText(fs: seq<Field>): string
  {
    Render(Trees(fs))
  }

  /** expandFields: the tree of s, read as one level. */
  method ExpandFields(s: string) returns (r: Result<(seq<Field>, string), JsError>)
    ensures r == FieldList(s)
    ensures !Balanced(s) ==> r == Err(Mismatch)
    ensures r.Ok? ==> r.value.1 == FormatString(r.value.0)
    ensures r.Err? ==> r.error == Mismatch || r.error == InvalidFormat
  {
    var tree := ExpandParenthesis(s);
    if tree.Err? {
      return Err(tree.error);
    }
    FieldsError(tree.value);
    r := ExpandLevel(tree.value);
  }

  /** Reading back the text of named fields gives the fields and their format. */
  lemma FieldListRoundTrip(fs: seq<Field>)
    requires Named(fs)
    ensures FieldList(FieldText(fs)) == Ok((fs, FormatString(fs)))
  {
    TreesClean(fs);
    ParseRender(Trees(fs));
    TreesRoundTrip(fs);
  }

  /** `a:int` is one int field. */
  lemma FieldListSingle()
    ensures FieldList("a:int") == Ok(([Single("a", IntT)], "i"))
  {
    var fs := [Single("a", IntT)];
    SingleText(fs);
    FieldListRoundTrip(fs);
  }

  lemma SingleText(fs: seq<Field>)
    requires fs == [Single("a", IntT)]
    ensures Named(fs) && FieldText(fs) == "a:int" && FormatString(fs) == "i"
  {
    assert IsIdentifier("a");
    assert NamedField(fs[0]);
    assert fs[1..] == [];
    var x := "a" + ":" + TypeName(IntT);
    assert x == "a:int";
    assert Trees(fs) == [Leaf(x)] + [];
    assert [Leaf(x)] + [] == [Leaf(x)];
    assert Render([Leaf(x)]) == RenderTree(Leaf(x));
  }

  /** An empty list has no fields. */
  lemma FieldListEmpty()
    ensures FieldList("") == Ok(([], ""))
  {
  }

  /** The characters field lists are written with. */
  predicate ListChar(c: char)
  {
    IsWordChar(c) || c == ':' || c == '[' || c == ']' || IsSeparator(c)
  }

  predicate Written(s: string)
  {
    forall i :: 0 <= i < |s| ==> ListChar(s[i])
  }

  lemma WrittenAppend(a: string, b: string)
    ensures Written(a + b) <==> Written(a) && Written(b)
  {
    if Written(a) && Written(b) {
      assert forall i :: 0 <= i < |a + b| ==> (a + b)[i] == if i < |a| then a[i] else b[i - |a|];
    }
    if Written(a + b) {
      assert forall i :: 0 <= i < |a| ==> a[i] == (a + b)[i];
      assert forall i :: 0 <= i < |b| ==> b[i] == (a + b)[|a| + i];
    }
  }

  lemma PlainAppend(a: string, b: string)
    requires Plain(a) && Plain(b)
    ensures Plain(a + b)
  {
    assert forall i :: 0 <= i < |a + b| ==> (a + b)[i] == if i < |a| then a[i] else b[i - |a|];
  }

  /** The text of a tree is written with the characters of its strings and separators. */
  lemma {:induction false} RenderWritten(ts: seq<Tree>)
    requires Written(Text(ts))
    ensures Written(Render(ts))
    decreases ts, 1
  {
    if ts != [] {
      WrittenAppend(TreeText(ts[0]), Text(ts[1..]));
      RenderTreeWritten(ts[0]);
      if |ts| > 1 {
        RenderWritten(ts[1..]);
        var sep := if ts[1].Group? then "" else ",";
        WrittenAppend(RenderTree(ts[0]), sep);
        WrittenAppend(RenderTree(ts[0]) + sep, Render(ts[1..]));
      }
    }
  }

  lemma {:induction false} RenderTreeWritten(t: Tree)
    requires Written(TreeText(t))
    ensures Written(RenderTree(t))
    decreases t, 0
  {
    if t.Group? {
      RenderWritten(t.items);
      WrittenAppend("(", Render(t.items));
      WrittenAppend("(" + Render(t.items), ")");
    }
  }

  lemma TypeNameWritten(t: Scalar)
    ensures Written(TypeName(t)) && Plain(TypeName(t)) && TypeName(t) != []
  {
  }

  lemma IdentifierWritten(name: string)
    requires IsIdentifier(name)
    ensures Written(name) && Plain(name)
  {
  }

  /** The strings of a simple field, and the head of a record array, are nonempty, hold no
      separator and are written with the characters of field lists. */
  lemma LeafWritten(name: string, mark: string, t: Option<Scalar>)
    requires IsIdentifier(name) && (mark == ":" || mark == "[]:")
    ensures var x := name + mark + (if t.Some? then TypeName(t.value) else "");
      Written(x) && Plain(x) && x != []
  {
    IdentifierWritten(name);
    var tail := if t.Some? then TypeName(t.value) else "";
    if t.Some? {
      TypeNameWritten(t.value);
    }
    assert Written(mark) && Plain(mark);
    WrittenAppend(name, mark);
    WrittenAppend(name + mark, tail);
    PlainAppend(name, mark);
    PlainAppend(name + mark, tail);
  }

  /** The tree of named fields is clean and written with the characters of field lists. */
  lemma {:induction false} TreesClean(fs: seq<Field>)
    requires Named(fs)
    ensures Clean(Trees(fs)) && Written(Text(Trees(fs)))
    decreases fs, 1
  {
    if fs != [] {
      assert NamedField(fs[0]);
      assert Named(fs[1..]) by {
        assert forall i :: 0 <= i < |fs[1..]| ==> fs[1..][i] == fs[i + 1];
      }
      FieldTreesClean(fs[0]);
      TreesClean(fs[1..]);
      CleanAppend(FieldTrees(fs[0]), Trees(fs[1..]));
      TextAppend(FieldTrees(fs[0]), Trees(fs[1..]));
      WrittenAppend(Text(FieldTrees(fs[0])), Text(Trees(fs[1..])));
    }
  }

  lemma {:induction false} FieldTreesClean(f: Field)
    requires NamedField(f)
    ensures Clean(FieldTrees(f)) && Written(Text(FieldTrees(f)))
    decreases f, 0
  {
    match f {
    case Single(name, t) =>
      LeafWritten(name, ":", Some(t));
      assert name + ":" + TypeName(t) == name + ":" + (if Some(t).Some? then TypeName(Some(t).value) else "");
      OneLeaf(name + ":" + TypeName(t));
    case SimpleArray(name, t) =>
      LeafWritten(name, "[]:", Some(t));
      assert name + "[]:" + TypeName(t) == name + "[]:" + (if Some(t).Some? then TypeName(Some(t).value) else "");
      OneLeaf(name + "[]:" + TypeName(t));
    case RecordArray(name, inner) =>
      LeafWritten(name, "[]:", None);
      assert name + "[]:" + "" == name + "[]:";
      TreesClean(inner);
      var ts := [Leaf(name + "[]:"), Group(Trees(inner))];
      assert ts[1..] == [Group(Trees(inner))] && ts[1..][1..] == [];
      assert Text(ts[1..]) == Text(Trees(inner)) + Text([]);
      assert Text(ts) == name + "[]:" + (Text(Trees(inner)) + []);
      assert Text(Trees(inner)) + [] == Text(Trees(inner));
      WrittenAppend(name + "[]:", Text(Trees(inner)));
    }
  }

  lemma OneLeaf(x: string)
    ensures Text([Leaf(x)]) == x
  {
    assert Text([Leaf(x)]) == x + Text([]);
  }

  /** The text of named fields is written with the characters of field lists. */
  lemma FieldTextWritten(fs: seq<Field>)
    requires Named(fs)
    ensures Written(FieldText(fs))
  {
    TreesClean(fs);
    RenderWritten(Trees(fs));
  }

  // The text of a signature

  predicate Unspaced(s: string)
  {
    forall i :: 0 <= i < |s| ==> !IsSpace(s[i])
  }

  lemma UnspacedAppend(a: string, b: string)
    requires Unspaced(a) && Unspaced(b)
    ensures Unspaced(a + b)
  {
    assert forall i :: 0 <= i < |a + b| ==> (a + b)[i] == if i < |a| then a[i] else b[i - |a|];
  }

  lemma WrittenUnspaced(s: string)
    requires Written(s)
    ensures Unspaced(s) && NoArrow(s)
  {
    assert forall i :: 0 <= i < |s| ==> ListChar(s[i]);
  }

  /** `#id name`, written without spaces. */
  function HeaderText(id: nat, name: string): string
  {
    "#" + Decimal(id) + name
  }

  /** The header of a text that starts with `#id name` and goes on with a '(' is that id and
      name. */
  lemma HeaderTextOf(id: nat, name: string, rest: string)
    requires id >= 1 && IsIdentifier(name) && rest != [] && rest[0] == '('
    ensures Unspaced(HeaderText(id, name))
    ensures HeaderOf(HeaderText(id, name) + rest) == Some(Header(id, name, |HeaderText(id, name)|))
    ensures (HeaderText(id, name) + rest)[|HeaderText(id, name)|..] == rest
  {
    HeaderTextUnspaced(id, name);
    HeaderTextRead(id, name, rest);
  }

  /** The header read from `#id name(…` is that id and name. */
  lemma HeaderTextRead(id: nat, name: string, rest: string)
    requires id >= 1 && IsIdentifier(name) && rest != [] && rest[0] == '('
    ensures HeaderOf(HeaderText(id, name) + rest) == Some(Header(id, name, |HeaderText(id, name)|))
    ensures (HeaderText(id, name) + rest)[|HeaderText(id, name)|..] == rest
  {
    DecimalDigits(id);
    HeaderOfDigits(HeaderText(id, name), Decimal(id), id, name, rest);
  }

  /** d is how a header writes id: digits, the first not 0. */
  predicate IdDigits(d: string, id: nat)
  {
    d != [] && d[0] != '0' && (forall i :: 0 <= i < |d| ==> IsDigit(d[i])) && DecimalValue(d) == id
  }

  /** The decimal digits of an id of at least 1 are a header's digits for it. */
  lemma DecimalDigits(id: nat)
    requires id >= 1
    ensures IdDigits(Decimal(id), id)
  {
    DecimalLeading(id);
    DecimalRoundTrip(id);
  }

  /** The header of `#digits name(…` is the value of the digits and the name. */
  lemma HeaderOfDigits(h: string, d: string, id: nat, name: string, rest: string)
    requires IdDigits(d, id) && IsIdentifier(name) && rest != [] && rest[0] == '('
    requires h == "#" + d + name
    ensures HeaderOf(h + rest) == Some(Header(id, name, |h|))
    ensures (h + rest)[|h|..] == rest
  {
    assert !IsWordChar(rest[0]);
    HeaderOfParts(d, name, rest);
    assert h + rest == "#" + d + name + rest;
  }

  /** `#id name` holds no white space. */
  lemma HeaderTextUnspaced(id: nat, name: string)
    requires IsIdentifier(name)
    ensures Unspaced(HeaderText(id, name))
  {
    IdentifierWritten(name);
    WrittenUnspaced(name);
    assert Unspaced(Decimal(id)) by {
      assert forall i :: 0 <= i < |Decimal(id)| ==> IsDigit(Decimal(id)[i]);
    }
    UnspacedAppend("#", Decimal(id));
    UnspacedAppend("#" + Decimal(id), name);
  }

  /** `(text)`: unspaced when the text is written with the characters of field lists. */
  lemma InParentheses(x: string)
    requires Written(x)
    ensures Unspaced("(" + x + ")")
  {
    WrittenUnspaced(x);
    UnspacedAppend("(", x);
    UnspacedAppend("(" + x, ")");
  }

  /** The signature text of a call: `#id name(args)->results` without spaces. */
  function CallText(id: nat, name: string, args: seq<Field>, outArgs: seq<Field>): string
  {
    HeaderText(id, name) + ("(" + FieldText(args) + ")" + "->" + FieldText(outArgs))
  }

  /** The call signature a text stands for: after white space is removed, a header, then
      `(args)` and `->results`, both optional. */
  function CallSignatureOf(str: string): Result<CallSignature, JsError>
  {
    var s := StripSpaces(str);
    match HeaderOf(s)
    case None => Err(InvalidFormat)
    case Some(h) =>
      match CallParts(s[h.length..])
      case None => Err(InvalidFormat)
      case Some(parts) =>
        match FieldList(parts.0)
        case Err(e) => Err(e)
        case Ok(args) =>
          match FieldList(parts.1)
          case Err(e) => Err(e)
          case Ok(outArgs) => Ok(CallSignature(h.id, h.name, args.0, args.1, outArgs.0, outArgs.1))
  }

  /** expandCallSignature: without white space, the header, then the arguments in parentheses
      and the results after `->`, both optional. */
  method ExpandCallSignature(str: string) returns (r: Result<CallSignature, JsError>)
    ensures r == CallSignatureOf(str)
    ensures r.Ok? ==> HeaderOf(StripSpaces(str)).Some?
    ensures r.Ok? ==> var h := HeaderOf(StripSpaces(str)).value;
      r.value.id == h.id && r.value.name == h.name && r.value.id >= 1
    ensures r.Ok? ==> r.value.argsFormat == FormatString(r.value.args)
    ensures r.Ok? ==> r.value.outArgsFormat == FormatString(r.value.outArgs)
    ensures HeaderOf(StripSpaces(str)).None? ==> r == Err(InvalidFormat)
  {
    var s := StripSpaces(str);
    var header := HeaderOf(s);
    if header.None? {
      return Err(InvalidFormat);
    }
    var h := header.value;
    var parts := CallParts(s[h.length..]);
    if parts.None? {
      return Err(InvalidFormat);
    }
    var args := ExpandFields(parts.value.0);
    if args.Err? {
      return Err(args.error);
    }
    var outArgs := ExpandFields(parts.value.1);
    if outArgs.Err? {
      return Err(outArgs.error);
    }
    return Ok(CallSignature(h.id, h.name, args.value.0, args.value.1, outArgs.value.0, outArgs.value.1));
  }

  /** The text of a call signature reads back as its id, name and field lists. */
  lemma CallSignatureRoundTrip(id: nat, name: string, args: seq<Field>, outArgs: seq<Field>)
    requires id >= 1 && IsIdentifier(name) && Named(args) && Named(outArgs)
    ensures CallSignatureOf(CallText(id, name, args, outArgs))
         == Ok(CallSignature(id, name, args, FormatString(args), outArgs, FormatString(outArgs)))
  {
    CallTextParts(id, name, args, outArgs);
    CallPartsRoundTrip(FieldText(args), FieldText(outArgs));
    FieldListRoundTrip(args);
    FieldListRoundTrip(outArgs);
  }

  /** The text of a call signature, after its header. */
  lemma CallTextParts(id: nat, name: string, args: seq<Field>, outArgs: seq<Field>)
    requires id >= 1 && IsIdentifier(name) && Named(args) && Named(outArgs)
    ensures var text := CallText(id, name, args, outArgs);
      StripSpaces(text) == text && HeaderOf(text) == Some(Header(id, name, |HeaderText(id, name)|))
      && text[|HeaderText(id, name)|..] == "(" + FieldText(args) + ")" + "->" + FieldText(outArgs)
      && NoArrow(FieldText(args))
  {
    var a, b := FieldText(args), FieldText(outArgs);
    var rest := "(" + a + ")" + "->" + b;
    FieldTextWritten(args);
    FieldTextWritten(outArgs);
    WrittenUnspaced(a);
    HeaderTextOf(id, name, rest);
    CallRestUnspaced(a, b);
    UnspacedAppend(HeaderText(id, name), rest);
    StripSpacesKeeps(CallText(id, name, args, outArgs));
  }

  /** `(args)->results` holds no white space when both lists are written as field lists. */
  lemma CallRestUnspaced(a: string, b: string)
    requires Written(a) && Written(b)
    ensures Unspaced("(" + a + ")" + "->" + b)
  {
    InParentheses(a);
    WrittenUnspaced(b);
    assert Unspaced("->");
    UnspacedAppend("(" + a + ")", "->");
    UnspacedAppend("(" + a + ")" + "->", b);
  }

  /** A call with neither arguments nor results: `#1f` has both lists empty. */
  lemma CallSignatureBare(text: string)
    requires text == "#1f"
    ensures CallSignatureOf(text) == Ok(CallSignature(1, "f", [], "", [], ""))
  {
    BareHeader(text);
    assert CallParts(text[3..]) == Some(("", ""));
    FieldListEmpty();
  }

  /** `#1f` is a header and nothing else. */
  lemma BareHeader(text: string)
    requires text == "#1f"
    ensures StripSpaces(text) == text && HeaderOf(text) == Some(Header(1, "f", 3)) && text[3..] == []
  {
    assert text == "#" + "1" + "f" + "";
    assert Unspaced(text) by {
      assert text[0] == '#' && text[1] == '1' && text[2] == 'f';
    }
    StripSpacesKeeps(text);
    assert IsIdentifier("f");
    HeaderOfParts("1", "f", "");
    assert DecimalValue("1") == 1 by {
      assert "1"[..0] == [];
    }
  }

  /** The signature text of an exception: `#id name(args)` without spaces. */
  function ExceptionText(id: nat, name: string, args: seq<Field>): string
  {
    HeaderText(id, name) + ("(" + FieldText(args) + ")")
  }

  /** The exception signature a text stands for, with the arguments read by `args`. */
  function ExceptionSignatureBy(str: string, args: string -> string): Result<ExceptionSignature, JsError>
  {
    var s := StripSpaces(str);
    match HeaderOf(s)
    case None => Err(InvalidFormat)
    case Some(h) =>
      match FieldList(args(s[h.length..]))
      case Err(e) => Err(e)
      case Ok(fs) => Ok(ExceptionSignature(h.id, h.name, fs.0, fs.1))
  }

  /** As written: the arguments end at the first ')'. */
  function ExceptionSignatureOf(str: string): Result<ExceptionSignature, JsError>
  {
    ExceptionSignatureBy(str, ExceptionArgs)
  }

  /** expandExceptionSignature: the header and the arguments up to the first ')'. */
  method ExpandExceptionSignature(str: string) returns (r: Result<ExceptionSignature, JsError>)
    ensures r == ExceptionSignatureOf(str)
    ensures r.Ok? ==> HeaderOf(StripSpaces(str)).Some?
    ensures r.Ok? ==> var h := HeaderOf(StripSpaces(str)).value;
      r.value.id == h.id && r.value.name == h.name && r.value.id >= 1
    ensures r.Ok? ==> r.value.argsFormat == FormatString(r.value.args)
    ensures HeaderOf(StripSpaces(str)).None? ==> r == Err(InvalidFormat)
  {
    var s := StripSpaces(str);
    var header := HeaderOf(s);
    if header.None? {
      return Err(InvalidFormat);
    }
    var h := header.value;
    var args := ExpandFields(ExceptionArgs(s[h.length..]));
    if args.Err? {
      return Err(args.error);
    }
    return Ok(ExceptionSignature(h.id, h.name, args.value.0, args.value.1));
  }

  /** Fields without record arrays. */
  predicate Flat(fs: seq<Field>)
  {
    forall i :: 0 <= i < |fs| ==> !fs[i].RecordArray?
  }

  /** A string without ')'. */
  predicate Unclosed(s: string)
  {
    forall i :: 0 <= i < |s| ==> s[i] != ')'
  }

  lemma UnclosedAppend(a: string, b: string)
    requires Unclosed(a) && Unclosed(b)
    ensures Unclosed(a + b)
  {
    assert forall i :: 0 <= i < |a + b| ==> (a + b)[i] == if i < |a| then a[i] else b[i - |a|];
  }

  /** Strings alone are written without parentheses. */
  lemma {:induction false} RenderFlat(ts: seq<Tree>)
    requires Clean(ts) && forall i :: 0 <= i < |ts| ==> ts[i].Leaf?
    ensures Unclosed(Render(ts))
  {
    if ts != [] {
      assert CleanTree(ts[0]);
      assert Unclosed(RenderTree(ts[0]));
      if |ts| > 1 {
        assert Clean(ts[1..]) by {
          assert forall k :: 0 <= k < |ts| - 1 ==> ts[1..][k] == ts[k + 1];
        }
        RenderFlat(ts[1..]);
        UnclosedAppend(RenderTree(ts[0]), ",");
        UnclosedAppend(RenderTree(ts[0]) + ",", Render(ts[1..]));
      }
    }
  }

  lemma {:induction false} TreesFlat(fs: seq<Field>)
    requires Flat(fs)
    ensures forall i :: 0 <= i < |Trees(fs)| ==> Trees(fs)[i].Leaf?
  {
    if fs != [] {
      assert Flat(fs[1..]) by {
        assert forall k :: 0 <= k < |fs| - 1 ==> fs[1..][k] == fs[k + 1];
      }
      TreesFlat(fs[1..]);
      assert !fs[0].RecordArray?;
    }
  }

  /** As written, the text of an exception signature whose fields hold no record array reads
      back as its id, name and fields. */
  lemma ExceptionRoundTrip(id: nat, name: string, args: seq<Field>)
    requires id >= 1 && IsIdentifier(name) && Named(args) && Flat(args)
    ensures ExceptionSignatureOf(ExceptionText(id, name, args))
         == Ok(ExceptionSignature(id, name, args, FormatString(args)))
  {
    ExceptionTextParts(id, name, args);
    var a := FieldText(args);
    TreesClean(args);
    TreesFlat(args);
    RenderFlat(Trees(args));
    ArgsWithoutClose(a);
    FieldListRoundTrip(args);
  }

  /** Arguments without ')' end at the closing one. */
  lemma ArgsWithoutClose(a: string)
    requires Unclosed(a)
    ensures ExceptionArgs("(" + a + ")") == a
  {
    var rest := "(" + a + ")";
    assert forall k :: 1 <= k < |rest| - 1 ==> rest[k] == a[k - 1];
    FirstCloseAt(rest, 1, |rest| - 1);
    assert rest[1 .. |rest| - 1] == a;
  }

  /** The last ')' from position i on: where a greedy `\(.*\)` stops. */
  function LastClose(s: string, i: nat): (r: Option<nat>)
    requires i <= |s|
    ensures r.Some? ==> i <= r.value < |s| && s[r.value] == ')'
    ensures r.Some? ==> forall j :: r.value < j < |s| ==> s[j] != ')'
    ensures r.None? ==> forall j :: i <= j < |s| ==> s[j] != ')'
    decreases |s| - i
  {
    if i == |s| then None
    else match LastClose(s, i + 1)
      case Some(j) => Some(j)
      case None => if s[i] == ')' then Some(i) else None
  }

  /** `(\(.*\))?`: the text up to the last ')', so that the parentheses of a record array stay
      inside the arguments. */
  function NestedExceptionArgs(s: string): string
  {
    if s == [] || s[0] != '(' then ""
    else match LastClose(s, 1)
      case None => ""
      case Some(j) => s[1 .. j]
  }

  /** Corrected: the arguments end at the last ')'. */
  function NestedExceptionSignatureOf(str: string): Result<ExceptionSignature, JsError>
  {
    ExceptionSignatureBy(str, NestedExceptionArgs)
  }

  /** expandExceptionSignature with the arguments read up to the last ')'. */
  method ExpandNestedExceptionSignature(str: string) returns (r: Result<ExceptionSignature, JsError>)
    ensures r == NestedExceptionSignatureOf(str)
    ensures r.Ok? ==> HeaderOf(StripSpaces(str)).Some?
    ensures r.Ok? ==> var h := HeaderOf(StripSpaces(str)).value;
      r.value.id == h.id && r.value.name == h.name && r.value.id >= 1
    ensures r.Ok? ==> r.value.argsFormat == FormatString(r.value.args)
    ensures HeaderOf(StripSpaces(str)).None? ==> r == Err(InvalidFormat)
  {
    var s := StripSpaces(str);
    var header := HeaderOf(s);
    if header.None? {
      return Err(InvalidFormat);
    }
    var h := header.value;
    var args := ExpandFields(NestedExceptionArgs(s[h.length..]));
    if args.Err? {
      return Err(args.error);
    }
    return Ok(ExceptionSignature(h.id, h.name, args.value.0, args.value.1));
  }

  /** The text of an exception signature, after its header. */
  lemma ExceptionTextParts(id: nat, name: string, args: seq<Field>)
    requires id >= 1 && IsIdentifier(name) && Named(args)
    ensures var text := ExceptionText(id, name, args);
      StripSpaces(text) == text && HeaderOf(text) == Some(Header(id, name, |HeaderText(id, name)|))
      && text[|HeaderText(id, name)|..] == "(" + FieldText(args) + ")"
  {
    var rest := "(" + FieldText(args) + ")";
    FieldTextWritten(args);
    HeaderTextOf(id, name, rest);
    InParentheses(FieldText(args));
    UnspacedAppend(HeaderText(id, name), rest);
    StripSpacesKeeps(ExceptionText(id, name, args));
  }

  /** Read up to the last ')', the text of an exception signature gives back its id, name and
      fields, record arrays included. */
  lemma NestedExceptionRoundTrip(id: nat, name: string, args: seq<Field>)
    requires id >= 1 && IsIdentifier(name) && Named(args)
    ensures NestedExceptionSignatureOf(ExceptionText(id, name, args))
         == Ok(ExceptionSignature(id, name, args, FormatString(args)))
  {
    ExceptionTextParts(id, name, args);
    var a := FieldText(args);
    var rest := "(" + a + ")";
    assert LastClose(rest, |rest| - 1) == Some(|rest| - 1);
    LastCloseAt(rest, 1, |rest| - 1);
    assert rest[1 .. |rest| - 1] == a;
    FieldListRoundTrip(args);
  }

  lemma {:induction false} LastCloseAt(s: string, i: nat, j: nat)
    requires i <= j < |s| && LastClose(s, j) == Some(j)
    ensures LastClose(s, i) == Some(j)
    decreases j - i
  {
    if i < j {
      LastCloseAt(s, i + 1, j);
    }
  }

  /** As written, the arguments of a record array end the group early: `#1e(a[]:(b:int))`
      fails with "Parenthesis mismatch", while read up to the last ')' it is one record array. */
  lemma ExceptionRecordRefused(text: string)
    requires text == "#1e(a[]:(b:int))"
    ensures ExceptionSignatureOf(text) == Err(Mismatch)
    ensures NestedExceptionSignatureOf(text)
         == Ok(ExceptionSignature(1, "e", [RecordArray("a", [Single("b", IntT)])], "(i)"))
  {
    var args := [RecordArray("a", [Single("b", IntT)])];
    RecordExample(args);
    RecordExampleText(args);
    RecordAsWritten(args);
    RecordNested(args);
  }

  /** The example's text, read as written. */
  lemma RecordAsWritten(args: seq<Field>)
    requires args == [RecordArray("a", [Single("b", IntT)])]
    ensures ExceptionSignatureOf(ExceptionText(1, "e", args)) == Err(Mismatch)
  {
    RecordExample(args);
    FirstCloseCuts("(" + FieldText(args) + ")");
    ExceptionTextArgs(1, "e", args);
  }

  /** The example's text, read up to the last ')'. */
  lemma RecordNested(args: seq<Field>)
    requires args == [RecordArray("a", [Single("b", IntT)])]
    ensures NestedExceptionSignatureOf(ExceptionText(1, "e", args)) == Ok(ExceptionSignature(1, "e", args, "(i)"))
  {
    RecordExample(args);
    NestedExceptionRoundTrip(1, "e", args);
  }

  lemma RecordExampleText(args: seq<Field>)
    requires Named(args) && FieldText(args) == "a[]:(b:int)"
    ensures ExceptionText(1, "e", args) == "#1e(a[]:(b:int))"
  {
    assert Decimal(1) == "1";
  }

  /** The arguments of an exception signature's text are what ExceptionArgs makes of them. */
  lemma ExceptionTextArgs(id: nat, name: string, args: seq<Field>)
    requires id >= 1 && IsIdentifier(name) && Named(args)
    requires FieldList(ExceptionArgs("(" + FieldText(args) + ")")).Err?
    ensures ExceptionSignatureOf(ExceptionText(id, name, args)) == Err(FieldList(ExceptionArgs("(" + FieldText(args) + ")")).error)
  {
    ExceptionTextParts(id, name, args);
  }

  /** The first ')' cuts `a[]:(b:int` off the arguments. */
  lemma FirstCloseCuts(rest: string)
    requires rest == "(a[]:(b:int))"
    ensures FieldList(ExceptionArgs(rest)) == Err(Mismatch)
  {
    assert rest[11] == ')' && forall k :: 1 <= k < 11 ==> rest[k] != ')';
    FirstCloseAt(rest, 1, 11);
    var head, tail := "a[]:", "b:int";
    assert rest[1..11] == head + ("(" + tail);
    assert Plain(head);
    LeftOpen(head, tail);
  }

  /** One record array `a` of one int `b`. */
  lemma RecordExample(args: seq<Field>)
    requires args == [RecordArray("a", [Single("b", IntT)])]
    ensures Named(args) && FieldText(args) == "a[]:(b:int)" && FormatString(args) == "(i)"
  {
    var inner := [Single("b", IntT)];
    assert Named(inner) by {
      assert NamedField(inner[0]) by {
        assert IsIdentifier("b");
      }
    }
    assert Named(args) by {
      assert NamedField(args[0]) by {
        assert IsIdentifier("a");
      }
    }
    assert inner[1..] == [] && "b" + ":" + TypeName(IntT) == "b:int";
    assert Trees(inner) == [Leaf("b:int")] + [];
    assert args[1..] == [] && "a" + "[]:" == "a[]:";
    var ts := [Leaf("a[]:"), Group([Leaf("b:int")])];
    assert [Leaf("b:int")] + [] == [Leaf("b:int")];
    assert FieldTrees(args[0]) == ts;
    assert Trees(args[1..]) == [];
    assert Trees(args) == ts + [];
    assert ts + [] == ts;
    assert Render([Leaf("b:int")]) == "b:int";
    assert Render(ts[1..]) == "(b:int)";
    assert Render(ts) == "a[]:" + "" + "(b:int)";
    assert "a[]:" + "" + "(b:int)" == "a[]:(b:int)";
    assert FormatString(inner) == "i";
  }

  /** A string, then a '(' that is never closed: the scan fails. */
  lemma LeftOpen(head: string, tail: string)
    requires Plain(head) && forall i :: 0 <= i < |tail| ==> tail[i] != ')'
    ensures FieldList(head + ("(" + tail)) == Err(Mismatch)
  {
    ScanPlain(head, "(" + tail, [], [], "");
    assert "" + head == head;
    ScanOpen(tail, [], [], head);
    assert [] + [Saved([], head)] == [Saved([], head)];
    ScanUnclosed(tail, [Saved([], head)], [], "");
  }

  /** With a level still open and no ')' left, the scan fails. */
  lemma {:induction false} ScanUnclosed(s: string, stack: seq<seq<Tree>>, tree: seq<Tree>, cache: string)
    requires stack != [] && forall i :: 0 <= i < |s| ==> s[i] != ')'
    ensures Scan(s, stack, tree, cache) == Err(Mismatch)
    decreases |s|
  {
    if s != [] {
      var next := if s[0] == '(' then stack + [Saved(tree, cache)] else stack;
      var level := if s[0] == '(' then [] else if s[0] == ',' then Saved(tree, cache) else tree;
      var held := if s[0] == '(' || s[0] == ',' then "" else cache + [s[0]];
      ScanUnclosed(s[1..], next, level, held);
    }
  }

  lemma {:induction false} FirstCloseAt(s: string, i: nat, j: nat)
    requires i <= j < |s| && s[j] == ')' && forall k :: i <= k < j ==> s[k] != ')'
    ensures FirstClose(s, i) == Some(j)
    decreases j - i
  {
    if i < j {
      FirstCloseAt(s, i + 1, j);
    }
  }
}
