/** Dot segments of URL paths: the reference's rewriting loop, section 5.2.4 of RFC 3986, the
    guard's stack of segments, and what both compute. */
module DotSegments {

  predicate NoSlash(s: string) { '/' !in s }

  predicate Segments(segs: seq<string>) { forall i :: 0 <= i < |segs| ==> NoSlash(segs[i]) }

  predicate Dot(s: string) { s == "." || s == ".." }

  predicate NoDots(segs: seq<string>) { forall i :: 0 <= i < |segs| ==> !Dot(segs[i]) }

  /** Every segment with a slash before it. */
  function Absolute(segs: seq<string>): string {
    if segs == [] then "" else "/" + segs[0] + Absolute(segs[1..])
  }

  function Join(segs: seq<string>): string
    requires segs != []
  {
    segs[0] + Absolute(segs[1..])
  }

  /** The first slash at or after `from`, or the end. */
  function Slash(s: string, from: nat): (i: nat)
    requires from <= |s|
    ensures from <= i <= |s| && (i < |s| ==> s[i] == '/') && forall k :: from <= k < i ==> s[k] != '/'
    decreases |s| - from
  {
    if from == |s| || s[from] == '/' then from else Slash(s, from + 1)
  }

  function Split(s: string): (segs: seq<string>)
    ensures segs != [] && Segments(segs)
    decreases |s|
  {
    var i := Slash(s, 0);
    if i == |s| then [s] else [s[..i]] + Split(s[i + 1..])
  }

  lemma {:induction false} SplitThenJoin(s: string)
    ensures Join(Split(s)) == s
    decreases |s|
  {
    hide Absolute;
    var i := Slash(s, 0);
    if i < |s| {
      var rest := Split(s[i + 1..]);
      SplitThenJoin(s[i + 1..]);
      JoinCons(s[..i], rest);
      Reassemble(s, i);
    } else {
      JoinOne(s);
    }
  }

  lemma JoinOne(s: string)
    ensures Join([s]) == s
  {
    assert [s][1..] == [];
    assert s + "" == s;
  }

  lemma JoinCons(head: string, rest: seq<string>)
    requires rest != []
    ensures Join([head] + rest) == head + ("/" + Join(rest))
  {
    assert ([head] + rest)[1..] == rest;
    AbsoluteStart(rest);
  }

  /** A text is what comes before a slash, the slash, and what comes after. */
  lemma Reassemble(s: string, i: nat)
    requires i < |s| && s[i] == '/'
    ensures s[..i] + ("/" + s[i + 1..]) == s
  {
  }

  lemma AbsoluteStart(segs: seq<string>)
    requires segs != []
    ensures Absolute(segs) == "/" + Join(segs) && Absolute(segs)[0] == '/'
  {
    hide Absolute;
    AbsoluteStep(segs);
    Shift(segs[0], Absolute(segs[1..]));
  }

  lemma Shift(first: string, tail: string)
    ensures "/" + first + tail == "/" + (first + tail)
  {
  }

  lemma {:induction false} JoinThenSplit(segs: seq<string>)
    requires segs != [] && Segments(segs)
    ensures Split(Join(segs)) == segs
    decreases |segs|
  {
    hide Absolute, Join;
    var head := segs[0];
    if |segs| == 1 {
      JoinOne(head);
      assert segs == [head];
      SplitOne(head);
    } else {
      var rest := segs[1..];
      JoinThenSplit(rest);
      assert segs == [head] + rest;
      JoinCons(head, rest);
      SplitCons(head, Join(rest));
    }
  }

  lemma SplitOne(s: string)
    requires NoSlash(s)
    ensures Split(s) == [s]
  {
    SlashIs(s, 0, |s|);
  }

  lemma SplitCons(head: string, tail: string)
    requires NoSlash(head)
    ensures Split(head + ("/" + tail)) == [head] + Split(tail)
  {
    var s := head + ("/" + tail);
    assert s[|head|] == '/' && s[..|head|] == head && s[|head| + 1..] == tail;
    forall k | 0 <= k < |head| ensures s[k] != '/' { assert s[k] == head[k]; }
    SlashIs(s, 0, |head|);
  }

  // ----- What removing dot segments means -----

  /** Drop the last segment; with none left, drop the slashless start of a relative path. */
  function Popped(segs: seq<string>): seq<string> { if segs == [] then [] else segs[..|segs| - 1] }

  /** Walks the segments left of an absolute path with a stack of those kept; a dot segment in
      last place leaves an empty segment behind. */
  function Walk(head: string, stack: seq<string>, segs: seq<string>): string
    decreases |segs|
  {
    if segs == [] then head + Absolute(stack)
    else if !Dot(segs[0]) then Walk(head, stack + [segs[0]], segs[1..])
    else
      var up := segs[0] == "..";
      var head' := if up && stack == [] then "" else head;
      var stack' := if up then Popped(stack) else stack;
      if |segs| == 1 then head' + Absolute(stack' + [""]) else Walk(head', stack', segs[1..])
  }

  /** A path from its first segment, which no slash precedes: leading dot segments go. */
  function Begin(segs: seq<string>): string
    requires segs != []
    decreases |segs|
  {
    if |segs| == 1 then (if Dot(segs[0]) then "" else segs[0])
    else if Dot(segs[0]) then Begin(segs[1..])
    else Walk(segs[0], [], segs[1..])
  }

  function OrRoot(s: string): string { if s == "" then "/" else s }

  // ----- The reference's loop -----

  function StartsWith(s: string, prefix: string): bool { |prefix| <= |s| && s[..|prefix|] == prefix }

  /** The last slash, or -1. */
  function LastSlash(s: string): (i: int)
    ensures -1 <= i < |s|
  {
    if s == "" then -1 else if s[|s| - 1] == '/' then |s| - 1 else LastSlash(s[..|s| - 1])
  }

  function RemoveLast(output: string): string {
    var slash := LastSlash(output);
    if slash < 0 then "" else output[..slash]
  }

  /** The loop, from any of its states. */
  function Loop(remaining: string, output: string): string
    decreases |remaining|
  {
    if remaining == "" then output
    else if StartsWith(remaining, "../") then Loop(remaining[3..], output)
    else if StartsWith(remaining, "./") then Loop(remaining[2..], output)
    else if StartsWith(remaining, "/./") then Loop("/" + remaining[3..], output)
    else if remaining == "/." then Loop("/", output)
    else if StartsWith(remaining, "/../") then Loop("/" + remaining[4..], RemoveLast(output))
    else if remaining == "/.." then Loop("/", RemoveLast(output))
    else if Dot(remaining) then output
    else
      var slash := Slash(remaining, if remaining[0] == '/' then 1 else 0);
      Loop(remaining[slash..], output + remaining[..slash])
  }

  method RemoveDotSegments(path: string) returns (result: string)
    ensures result == OrRoot(Begin(Split(path)))
  {
    var remaining, output := path, "";
    while remaining != ""
      invariant Loop(path, "") == Loop(remaining, output)
      decreases |remaining|
    {
      if StartsWith(remaining, "../") {
        remaining := remaining[3..];
      } else if StartsWith(remaining, "./") {
        remaining := remaining[2..];
      } else if StartsWith(remaining, "/./") {
        remaining := "/" + remaining[3..];
      } else if remaining == "/." {
        remaining := "/";
      } else if StartsWith(remaining, "/../") {
        remaining, output := "/" + remaining[4..], RemoveLast(output);
      } else if remaining == "/.." {
        remaining, output := "/", RemoveLast(output);
      } else if Dot(remaining) {
        remaining := "";
      } else {
        var slash := Slash(remaining, if remaining[0] == '/' then 1 else 0);
        output, remaining := output + remaining[..slash], remaining[slash..];
      }
    }
    SplitThenJoin(path);
    LoopIsBegin(Split(path));
    return if output == "" then "/" else output;
  }

  // ----- The loop computes the walk -----

  lemma SlashIs(s: string, from: nat, i: nat)
    requires from <= i <= |s| && (i < |s| ==> s[i] == '/') && forall k :: from <= k < i ==> s[k] != '/'
    ensures Slash(s, from) == i
  {
  }

  /** Starting with `/name/` is having `name` as the first segment, and another one after it. */
  lemma StartsWithSegment(s: string, name: string)
    requires s != "" && s[0] == '/' && NoSlash(name)
    ensures StartsWith(s, "/" + name + "/") <==> Slash(s, 1) == |name| + 1 < |s| && s[1..|name| + 1] == name
    ensures s == "/" + name <==> Slash(s, 1) == |name| + 1 == |s| && s[1..|name| + 1] == name
  {
    if StartsWith(s, "/" + name + "/") { PrefixGivesSegment(s, name); }
    if s == "/" + name { EqualGivesSegment(s, name); }
    if Slash(s, 1) == |name| + 1 && s[1..|name| + 1] == name { SegmentGivesPrefix(s, name); }
  }

  lemma PrefixGivesSegment(s: string, name: string)
    requires NoSlash(name) && StartsWith(s, "/" + name + "/")
    ensures Slash(s, 1) == |name| + 1 < |s| && s[1..|name| + 1] == name
  {
    var marked, rest := "/" + name + "/", s[|name| + 2..];
    assert s == marked + rest;
    assert marked + rest == "/" + name + ("/" + rest);
    SlashAfter(name, "/" + rest);
  }

  lemma EqualGivesSegment(s: string, name: string)
    requires NoSlash(name) && s == "/" + name
    ensures Slash(s, 1) == |name| + 1 == |s| && s[1..|name| + 1] == name
  {
    assert s == "/" + name + "";
    SlashAfter(name, "");
  }

  lemma SegmentGivesPrefix(s: string, name: string)
    requires s != "" && s[0] == '/' && Slash(s, 1) == |name| + 1 && s[1..|name| + 1] == name
    ensures if |name| + 1 < |s| then StartsWith(s, "/" + name + "/") else s == "/" + name
  {
    var n := |name| + 1;
    assert s[..n] == [s[0]] + s[1..n];
    if n < |s| { assert s[..n + 1] == s[..n] + [s[n]]; } else { assert s[..n] == s; }
  }

  /** The first segment of an absolute remainder ends at its second slash. */
  lemma FirstSegment(segs: seq<string>)
    requires segs != [] && Segments(segs)
    ensures var s := Absolute(segs);
            && s != "" && s[0] == '/' && Slash(s, 1) == |segs[0]| + 1 && s[1..|segs[0]| + 1] == segs[0]
            && (|segs[0]| + 1 == |s| <==> |segs| == 1)
            && s[..|segs[0]| + 1] == "/" + segs[0] && s[|segs[0]| + 1..] == Absolute(segs[1..])
  {
    hide Absolute;
    AbsoluteStep(segs);
    if |segs| > 1 { AbsoluteStart(segs[1..]); }
    SlashAfter(segs[0], Absolute(segs[1..]));
  }

  lemma AbsoluteStep(segs: seq<string>)
    requires segs != []
    ensures Absolute(segs) == "/" + segs[0] + Absolute(segs[1..])
    ensures |segs| == 1 ==> Absolute(segs[1..]) == ""
  {
  }

  lemma SlashAfter(first: string, tail: string)
    requires NoSlash(first) && (tail == "" || tail[0] == '/')
    ensures var s := "/" + first + tail;
            && s[0] == '/' && Slash(s, 1) == |first| + 1 && s[1..|first| + 1] == first
            && s[..|first| + 1] == "/" + first && s[|first| + 1..] == tail
  {
    var s := "/" + first + tail;
    forall k | 1 <= k < |first| + 1 ensures s[k] != '/' { assert s[k] == first[k - 1]; }
    SlashIs(s, 1, |first| + 1);
  }

  lemma {:induction false} LastSlashOf(s: string, tail: string)
    requires NoSlash(tail)
    ensures LastSlash(s + "/" + tail) == |s|
    decreases |tail|
  {
    var whole := s + "/" + tail;
    if tail == "" {
      assert whole[|whole| - 1] == '/';
    } else {
      var shorter := tail[..|tail| - 1];
      LastSlashOf(s, shorter);
      assert whole[..|whole| - 1] == s + "/" + shorter && whole[|whole| - 1] == tail[|tail| - 1];
    }
  }

  lemma {:induction false} NoSlashNone(s: string)
    requires NoSlash(s)
    ensures LastSlash(s) == -1
  {
    if s != "" { NoSlashNone(s[..|s| - 1]); }
  }

  lemma {:induction false} AbsoluteLast(segs: seq<string>, last: string)
    ensures Absolute(segs + [last]) == Absolute(segs) + "/" + last
    decreases |segs|
  {
    if segs == [] {
      assert segs + [last] == [last] && [last][1..] == [];
    } else {
      AbsoluteLast(segs[1..], last);
      assert (segs + [last])[1..] == segs[1..] + [last];
    }
  }

  lemma RemoveLastPops(head: string, stack: seq<string>)
    requires NoSlash(head) && Segments(stack)
    ensures RemoveLast(head + Absolute(stack)) == (if stack == [] then "" else head) + Absolute(Popped(stack))
  {
    hide LastSlash, Absolute, RemoveLast;
    AbsoluteNone();
    if stack == [] {
      assert head + "" == head && "" + "" == "";
      RemoveOnly(head);
    } else {
      var n := |stack| - 1;
      var kept, last := stack[..n], stack[n];
      assert stack == kept + [last];
      AbsoluteLast(kept, last);
      Associate(head, Absolute(kept), last);
      RemoveLastOf(head + Absolute(kept), last);
    }
  }

  lemma AbsoluteNone()
    ensures Absolute([]) == ""
  {
  }

  lemma RemoveOnly(head: string)
    requires NoSlash(head)
    ensures RemoveLast(head) == ""
  {
    NoSlashNone(head);
  }

  lemma Associate(head: string, kept: string, last: string)
    ensures head + (kept + "/" + last) == head + kept + "/" + last
  {
  }

  lemma RemoveLastOf(output: string, last: string)
    requires NoSlash(last)
    ensures RemoveLast(output + "/" + last) == output
  {
    LastSlashOf(output, last);
    assert (output + "/" + last)[..|output|] == output;
  }

  /** A remainder with a dot segment in front: what is left of it, and how the loop sees it. */
  lemma DotAhead(segs: seq<string>, output: string)
    requires segs != [] && Segments(segs) && Dot(segs[0])
    ensures var left := if |segs| == 1 then "/" else Absolute(segs[1..]);
            Loop(Absolute(segs), output) == Loop(left, if segs[0] == ".." then RemoveLast(output) else output)
  {
    var s := Absolute(segs);
    FirstSegment(segs);
    StartsWithSegment(s, ".");
    StartsWithSegment(s, "..");
    assert "/" + "." + "/" == "/./" && "/" + ".." + "/" == "/../" && "/" + "." == "/." && "/" + ".." == "/..";
    if |segs| > 1 {
      AbsoluteStart(segs[1..]);
      assert s[|segs[0]| + 2..] == Absolute(segs[1..])[1..];
      assert "/" + s[|segs[0]| + 2..] == Absolute(segs[1..]);
    }
  }

  lemma PlainAhead(segs: seq<string>, output: string)
    requires segs != [] && Segments(segs) && !Dot(segs[0])
    ensures Loop(Absolute(segs), output) == Loop(Absolute(segs[1..]), output + ("/" + segs[0]))
  {
    hide Absolute, Loop, StartsWith;
    var s := Absolute(segs);
    FirstSegment(segs);
    StartsWithSegment(s, ".");
    StartsWithSegment(s, "..");
    assert "/" + "." + "/" == "/./" && "/" + ".." + "/" == "/../" && "/" + "." == "/." && "/" + ".." == "/..";
    LoopTakesSegment(s, output);
  }

  lemma LoopTakesSegment(s: string, output: string)
    requires s != "" && s[0] == '/'
    requires !StartsWith(s, "/./") && !StartsWith(s, "/../") && s != "/." && s != "/.."
    ensures Loop(s, output) == Loop(s[Slash(s, 1)..], output + s[..Slash(s, 1)])
  {
    assert !StartsWith(s, "../") && !StartsWith(s, "./");
  }

  lemma LoopAtRoot(output: string)
    ensures Loop("/", output) == output + "/"
  {
    assert Slash("/", 1) == 1;
    assert "/"[1..] == "" && "/"[..1] == "/";
  }

  lemma DotStep(head: string, stack: seq<string>, segs: seq<string>)
    requires NoSlash(head) && Segments(stack) && Segments(segs) && segs != [] && Dot(segs[0])
    ensures var up := segs[0] == "..";
            var head' := if up && stack == [] then "" else head;
            var stack' := if up then Popped(stack) else stack;
            Loop(Absolute(segs), head + Absolute(stack)) ==
              if |segs| == 1 then head' + Absolute(stack' + [""])
              else Loop(Absolute(segs[1..]), head' + Absolute(stack'))
  {
    hide Loop, Absolute, RemoveLast;
    var up := segs[0] == "..";
    var head' := if up && stack == [] then "" else head;
    var stack' := if up then Popped(stack) else stack;
    DotAhead(segs, head + Absolute(stack));
    if up { RemoveLastPops(head, stack); }
    if |segs| == 1 {
      LoopAtRoot(head' + Absolute(stack'));
      AbsoluteLast(stack', "");
      assert head' + Absolute(stack' + [""]) == head' + Absolute(stack') + "/";
    }
  }

  lemma PlainStep(head: string, stack: seq<string>, segs: seq<string>)
    requires Segments(segs) && segs != [] && !Dot(segs[0])
    ensures Loop(Absolute(segs), head + Absolute(stack)) ==
              Loop(Absolute(segs[1..]), head + Absolute(stack + [segs[0]]))
  {
    hide Loop, Absolute;
    PlainAhead(segs, head + Absolute(stack));
    AbsoluteLast(stack, segs[0]);
    assert head + Absolute(stack) + ("/" + segs[0]) == head + Absolute(stack + [segs[0]]);
  }

  lemma {:induction false} LoopIsWalk(head: string, stack: seq<string>, segs: seq<string>)
    requires NoSlash(head) && Segments(stack) && Segments(segs)
    ensures Loop(Absolute(segs), head + Absolute(stack)) == Walk(head, stack, segs)
    decreases |segs|
  {
    hide Loop;
    if segs == [] {
      LoopDone(head + Absolute(stack));
    } else if Dot(segs[0]) {
      DotStep(head, stack, segs);
      if |segs| > 1 {
        var up := segs[0] == "..";
        LoopIsWalk(if up && stack == [] then "" else head, if up then Popped(stack) else stack, segs[1..]);
      }
    } else {
      PlainStep(head, stack, segs);
      LoopIsWalk(head, stack + [segs[0]], segs[1..]);
    }
  }

  lemma LoopDone(output: string)
    ensures Loop("", output) == output
  {
  }

  /** The same for a path without a leading slash. */
  lemma {:induction false} LoopIsBegin(segs: seq<string>)
    requires segs != [] && Segments(segs)
    ensures Loop(Join(segs), "") == Begin(segs)
    decreases |segs|
  {
    var s, first := Join(segs), segs[0];
    if first == "" && |segs| > 1 {
      assert s == Absolute(segs[1..]);
      LoopIsWalk("", [], segs[1..]);
      assert "" + Absolute([]) == "";
    } else if first == "" {
      assert s == "";
    } else {
      RelativeStart(segs);
      if Dot(first) && |segs| > 1 {
        LoopIsBegin(segs[1..]);
      } else if |segs| > 1 {
        LoopIsWalk(first, [], segs[1..]);
        assert first + Absolute([]) == first;
      } else {
        LoopDone(first);
      }
    }
  }

  lemma RelativeStart(segs: seq<string>)
    requires segs != [] && Segments(segs) && segs[0] != ""
    ensures var s, first := Join(segs), segs[0];
            && (Dot(first) && |segs| > 1 ==> Loop(s, "") == Loop(Join(segs[1..]), ""))
            && (Dot(first) && |segs| == 1 ==> Loop(s, "") == "")
            && (!Dot(first) ==> Loop(s, "") == Loop(Absolute(segs[1..]), first))
  {
    hide Absolute, Loop, Dot;
    AbsoluteStep(segs);
    if |segs| > 1 { AbsoluteStart(segs[1..]); }
    LoopRelative(segs[0], Absolute(segs[1..]));
    if |segs| > 1 { assert Absolute(segs[1..])[1..] == Join(segs[1..]); }
  }

  /** The first turn of the loop on a text that does not start with a slash. */
  lemma LoopRelative(first: string, tail: string)
    requires first != "" && NoSlash(first) && (tail == "" || tail[0] == '/')
    ensures Dot(first) && tail != "" ==> Loop(first + tail, "") == Loop(tail[1..], "")
    ensures Dot(first) && tail == "" ==> Loop(first + tail, "") == ""
    ensures !Dot(first) ==> Loop(first + tail, "") == Loop(tail, first)
  {
    var s := first + tail;
    RelativeSlash(first, tail);
    RelativePrefix(s, first, tail != "");
    assert "" + first == first;
    if tail != "" { assert s[|first| + 1..] == tail[1..]; }
  }

  lemma RelativeSlash(first: string, tail: string)
    requires first != "" && NoSlash(first) && (tail == "" || tail[0] == '/')
    ensures var s := first + tail;
            s[0] != '/' && Slash(s, 0) == |first| && s[..|first|] == first && s[|first|..] == tail
  {
    var s := first + tail;
    forall k | 0 <= k < |first| ensures s[k] != '/' { assert s[k] == first[k]; }
    SlashIs(s, 0, |first|);
  }

  lemma RelativePrefix(s: string, first: string, more: bool)
    requires first != "" && |first| <= |s| && s[..|first|] == first && NoSlash(first) && s[0] != '/'
    requires if more then |first| < |s| && s[|first|] == '/' else s == first
    ensures StartsWith(s, "../") <==> first == ".." && more
    ensures StartsWith(s, "./") <==> first == "." && more
    ensures !StartsWith(s, "/./") && !StartsWith(s, "/../") && s != "/." && s != "/.."
    ensures Dot(s) <==> Dot(first) && !more
  {
    SlashIs(s, 0, |first|);
    RelativeName(s, "..");
    RelativeName(s, ".");
    assert ".." + "/" == "../" && "." + "/" == "./";
  }

  lemma RelativeName(s: string, name: string)
    requires s != "" && NoSlash(name) && name != ""
    ensures StartsWith(s, name + "/") <==> Slash(s, 0) == |name| < |s| && s[..|name|] == name
    ensures s == name <==> Slash(s, 0) == |name| == |s| && s[..|name|] == name
  {
    var marked := name + "/";
    if StartsWith(s, marked) {
      assert s[..|name|] == marked[..|name|] == name && s[|name|] == marked[|name|];
      forall k | 0 <= k < |name| ensures s[k] != '/' { assert s[..|name|][k] == name[k]; }
      SlashIs(s, 0, |name|);
    }
    if s == name { SlashIs(s, 0, |s|); }
    if Slash(s, 0) == |name| < |s| && s[..|name|] == name { assert s[..|name| + 1] == marked; }
  }

  // ----- Results -----

  /** Nothing the walk keeps is a dot segment. */
  lemma {:induction false} WalkKeepsNoDots(head: string, stack: seq<string>,
                                           segs: seq<string>) returns (first: string, kept: seq<string>)
    requires NoSlash(head) && !Dot(head) && Segments(stack) && NoDots(stack) && Segments(segs)
    ensures NoSlash(first) && !Dot(first) && Segments(kept) && NoDots(kept)
    ensures Walk(head, stack, segs) == first + Absolute(kept)
    ensures head == "" ==> first == ""
    ensures if segs == [] then kept == stack else kept != []
    decreases |segs|
  {
    if segs == [] {
      first, kept := head, stack;
    } else if Dot(segs[0]) {
      var up := segs[0] == "..";
      var head' := if up && stack == [] then "" else head;
      var stack' := if up then Popped(stack) else stack;
      if |segs| == 1 {
        first, kept := head', stack' + [""];
      } else {
        first, kept := WalkKeepsNoDots(head', stack', segs[1..]);
      }
    } else {
      first, kept := WalkKeepsNoDots(head, stack + [segs[0]], segs[1..]);
    }
  }

  function RemoveDots(path: string): string { OrRoot(Begin(Split(path))) }

  lemma {:induction false} BeginKeepsNoDots(segs: seq<string>) returns (kept: seq<string>)
    requires segs != [] && Segments(segs)
    ensures kept != [] && Segments(kept) && NoDots(kept) && Begin(segs) == Join(kept)
    decreases |segs|
  {
    if |segs| == 1 {
      kept := [if Dot(segs[0]) then "" else segs[0]];
    } else if Dot(segs[0]) {
      kept := BeginKeepsNoDots(segs[1..]);
    } else {
      var first, rest := WalkKeepsNoDots(segs[0], [], segs[1..]);
      kept := [first] + rest;
      assert kept[1..] == rest;
    }
  }

  /** No dot segment is left of any path. */
  lemma NoDotSegmentLeft(path: string)
    ensures NoDots(Split(RemoveDots(path)))
  {
    var kept := BeginKeepsNoDots(Split(path));
    JoinThenSplit(kept);
    assert Split("/") == ["", ""] by { JoinThenSplit(["", ""]); assert Join(["", ""]) == "/"; }
  }

  lemma {:induction false} WalkWithoutDots(head: string, stack: seq<string>, segs: seq<string>)
    requires NoDots(segs)
    ensures Walk(head, stack, segs) == head + Absolute(stack + segs)
    decreases |segs|
  {
    if segs == [] {
      assert stack + segs == stack;
    } else {
      WalkWithoutDots(head, stack + [segs[0]], segs[1..]);
      assert stack + [segs[0]] + segs[1..] == stack + segs;
    }
  }

  /** A path without dot segments is left alone, so removing them twice is removing them once. */
  lemma RemovalIsIdempotent(path: string)
    ensures RemoveDots(RemoveDots(path)) == RemoveDots(path)
  {
    NoDotSegmentLeft(path);
    var done := RemoveDots(path);
    var segs := Split(done);
    SplitThenJoin(done);
    if |segs| > 1 {
      WalkWithoutDots(segs[0], [], segs[1..]);
      assert [] + segs[1..] == segs[1..];
    }
  }

  // ----- The guard's stack -----

  /** What the guard keeps of the segments ahead; the bottom of its stack never goes. */
  function GuardStack(stack: seq<string>, segs: seq<string>): seq<string>
    decreases |segs|
  {
    if segs == [] then stack
    else if segs[0] == "." then GuardStack(stack, segs[1..])
    else if segs[0] == ".." then GuardStack(if |stack| > 1 then stack[..|stack| - 1] else stack, segs[1..])
    else GuardStack(stack + [segs[0]], segs[1..])
  }

  function JoinAll(segs: seq<string>): string { if segs == [] then "" else Join(segs) }

  method NormalizePath(path: string) returns (result: string)
    ensures result == if path == "" then "/" else OrRoot(JoinAll(GuardStack([], Split(path))))
  {
    if path == "" { return "/"; }
    var segments := Split(path);
    var stack: seq<string> := [];
    var i := 0;
    while i < |segments|
      invariant 0 <= i <= |segments|
      invariant GuardStack([], segments) == GuardStack(stack, segments[i..])
    {
      if segments[i] == "." {
      } else if segments[i] == ".." {
        if |stack| > 1 { stack := stack[..|stack| - 1]; }
      } else {
        stack := stack + [segments[i]];
      }
      i := i + 1;
    }
    result := JoinAll(stack);
    if result == "" { return "/"; }
  }

  /** The segments an absolute path resolves to. */
  function Kept(stack: seq<string>, segs: seq<string>): seq<string>
    decreases |segs|
  {
    if segs == [] then stack
    else if segs[0] == "." then Kept(stack, segs[1..])
    else if segs[0] == ".." then Kept(Popped(stack), segs[1..])
    else Kept(stack + [segs[0]], segs[1..])
  }

  lemma {:induction false} GuardKeeps(stack: seq<string>, segs: seq<string>)
    ensures GuardStack([""] + stack, segs) == [""] + Kept(stack, segs)
    decreases |segs|
  {
    if segs != [] {
      if segs[0] == "." { GuardKeeps(stack, segs[1..]); }
      else if segs[0] == ".." {
        GuardKeeps(Popped(stack), segs[1..]);
        if stack != [] { assert ([""] + stack)[..|stack|] == [""] + Popped(stack); }
      } else {
        GuardKeeps(stack + [segs[0]], segs[1..]);
        assert [""] + stack + [segs[0]] == [""] + (stack + [segs[0]]);
      }
    }
  }

  lemma {:induction false} WalkKeeps(stack: seq<string>, segs: seq<string>)
    requires segs != []
    ensures Walk("", stack, segs) == Absolute(Kept(stack, segs) + if Dot(segs[|segs| - 1]) then [""] else [])
    ensures !Dot(segs[|segs| - 1]) ==> Kept(stack, segs) != []
    decreases |segs|
  {
    if |segs| > 1 {
      var next := if segs[0] == "." then stack else if segs[0] == ".." then Popped(stack) else stack + [segs[0]];
      WalkKeeps(next, segs[1..]);
    } else {
      assert Kept(stack, segs) + [] == Kept(stack, segs);
      assert segs[1..] == [];
    }
  }

  /** On an absolute path guard and reference agree exactly if the last segment is not a dot
      segment, or nothing is left but the root. */
  lemma GuardAgrees(path: string)
    requires path != "" && path[0] == '/'
    ensures var segs := Split(path);
            && segs[0] == "" && |segs| > 1
            && (OrRoot(JoinAll(GuardStack([], segs))) == RemoveDots(path) <==>
                !Dot(segs[|segs| - 1]) || Kept([], segs[1..]) == [])
  {
    var segs := Split(path);
    assert Slash(path, 0) == 0;
    var rest := segs[1..];
    var kept := Kept([], rest);
    assert [] + [""] == [""] + [];
    GuardKeeps([], rest);
    WalkKeeps([], rest);
    assert JoinAll([""] + kept) == Absolute(kept) by { assert ([""] + kept)[1..] == kept; }
    assert kept + [] == kept;
    if Dot(segs[|segs| - 1]) { AbsoluteLast(kept, ""); }
  }

  lemma SplitExample()
    ensures Split("/a/.") == ["", "a", "."]
  {
    hide Split;
    SplitOne(".");
    SplitCons("a", ".");
    assert "a" + ("/" + ".") == "a/.";
    SplitCons("", "a/.");
    assert "" + ("/" + "a/.") == "/a/.";
    assert [""] + (["a"] + ["."]) == ["", "a", "."];
  }

  lemma ExampleKept()
    ensures GuardStack([], ["", "a", "."]) == ["", "a"]
    ensures Begin(["", "a", "."]) == Absolute(["a", ""])
  {
    assert ["", "a", "."][1..] == ["a", "."] && ["a", "."][1..] == ["."] && ["."][1..] == [];
    assert [] + [""] == [""] && [] + ["a"] == ["a"] && [""] + ["a"] == ["", "a"] && ["a"] + [""] == ["a", ""];
  }

  /** Where they differ: the reference leaves the slash a last dot segment stood behind. */
  lemma GuardDiffers()
    ensures RemoveDots("/a/.") == "/a/"
    ensures OrRoot(JoinAll(GuardStack([], Split("/a/.")))) == "/a"
  {
    hide Split, GuardStack, Begin;
    SplitExample();
    ExampleKept();
    assert ["a", ""][1..] == [""] && [""][1..] == [];
    assert ["", "a"][1..] == ["a"] && ["a"][1..] == [];
  }
}
