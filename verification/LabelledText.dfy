/** Lines with labels, joined by line feeds: when the joined text can be taken apart again. */
module LabelledText {
  import opened Strings

  // ----- separators -----

  predicate OccursAt(sep: string, s: string, j: nat) {
    j + |sep| <= |s| && forall i | 0 <= i < |sep| :: s[j + i] == sep[i]
  }

  predicate Occurs(sep: string, s: string) {
    exists j: nat | j <= |s| :: OccursAt(sep, s, j)
  }

  /** A line feed and a label: no two occurrences of it can overlap. */
  predicate Separates(sep: string) {
    sep != [] && sep[0] == '\n' && OneLine(sep[1..])
  }

  /** A text without the separator is told apart from what follows the first one. */
  lemma SplitFirst(sep: string, f: string, r: string, g: string, q: string)
    requires Separates(sep) && !Occurs(sep, f) && !Occurs(sep, g)
    requires f + sep + r == g + sep + q
    ensures f == g && r == q
  {
    if |f| < |g| {
      NoEarlierEnd(sep, f, r, g, q);
    } else if |g| < |f| {
      NoEarlierEnd(sep, g, q, f, r);
    } else {
      assert (f + sep + r)[..|f|] == f && (g + sep + q)[..|f|] == g;
      assert (f + sep + r)[|f| + |sep|..] == r && (g + sep + q)[|f| + |sep|..] == q;
    }
  }

  lemma NoEarlierEnd(sep: string, f: string, r: string, g: string, q: string)
    requires Separates(sep) && !Occurs(sep, g) && |f| < |g|
    ensures f + sep + r != g + sep + q
  {
    var s, t := f + sep + r, g + sep + q;
    if |f| + |sep| <= |g| {
      if s == t {
        forall i | 0 <= i < |sep| ensures g[|f| + i] == sep[i] {
          assert t[|f| + i] == s[|f| + i];
        }
        assert OccursAt(sep, g, |f|);
      }
    } else {
      var k := |g| - |f|;
      assert sep[k] == sep[1..][k - 1];
      assert s[|g|] == sep[k] && t[|g|] == sep[0];
    }
  }

  // ----- fields and separators in turn -----

  function Weave(fields: seq<string>, seps: seq<string>): string
    requires |fields| == |seps| + 1
    decreases |seps|
  {
    if seps == [] then fields[0] else fields[0] + seps[0] + Weave(fields[1..], seps[1..])
  }

  /** No field holds the separator after it; the last field is free. */
  predicate Clean(fields: seq<string>, seps: seq<string>)
    requires |fields| == |seps| + 1
  {
    forall i | 0 <= i < |seps| :: !Occurs(seps[i], fields[i])
  }

  predicate AllSeparate(seps: seq<string>) {
    forall i | 0 <= i < |seps| :: Separates(seps[i])
  }

  lemma CleanTail(fields: seq<string>, seps: seq<string>)
    requires |fields| == |seps| + 1 && seps != []
    ensures Clean(fields, seps) <==> !Occurs(seps[0], fields[0]) && Clean(fields[1..], seps[1..])
  {
    if !Occurs(seps[0], fields[0]) && Clean(fields[1..], seps[1..]) {
      forall i | 0 <= i < |seps| ensures !Occurs(seps[i], fields[i]) {
        if i > 0 { assert !Occurs(seps[1..][i - 1], fields[1..][i - 1]); }
      }
    }
    if Clean(fields, seps) {
      forall i | 0 <= i < |seps[1..]| ensures !Occurs(seps[1..][i], fields[1..][i]) {
        assert !Occurs(seps[i + 1], fields[i + 1]);
      }
    }
  }

  /** Clean fields are determined by their woven text. */
  lemma {:induction false} WeaveInjective(f: seq<string>, g: seq<string>, seps: seq<string>)
    requires |f| == |g| == |seps| + 1 && AllSeparate(seps) && Clean(f, seps) && Clean(g, seps)
    requires Weave(f, seps) == Weave(g, seps)
    ensures f == g
    decreases |seps|
  {
    if seps == [] {
      assert f == [f[0]] && g == [g[0]];
    } else {
      CleanTail(f, seps);
      CleanTail(g, seps);
      SplitFirst(seps[0], f[0], Weave(f[1..], seps[1..]), g[0], Weave(g[1..], seps[1..]));
      WeaveInjective(f[1..], g[1..], seps[1..]);
      assert f == [f[0]] + f[1..] && g == [g[0]] + g[1..];
    }
  }

  // ----- reading a woven text -----

  /** The first occurrence of a separator, or the length of the text. */
  function FirstAt(sep: string, s: string): (j: nat)
    ensures j <= |s|
    ensures j < |s| ==> OccursAt(sep, s, j)
    ensures forall i: nat | i < j :: !OccursAt(sep, s, i)
  {
    if s == [] || OccursAt(sep, s, 0) then 0
    else
      var j := FirstAt(sep, s[1..]);
      ShiftOccurs(sep, s);
      1 + j
  }

  lemma ShiftOccurs(sep: string, s: string)
    requires s != []
    ensures forall i: nat | i > 0 :: OccursAt(sep, s, i) <==> OccursAt(sep, s[1..], i - 1)
  {
    forall i: nat | i > 0 ensures OccursAt(sep, s, i) <==> OccursAt(sep, s[1..], i - 1) {
      var t := s[1..];
      assert forall k | 0 <= k < |t| :: t[k] == s[k + 1];
      if OccursAt(sep, t, i - 1) {
        forall k | 0 <= k < |sep| ensures s[i + k] == sep[k] { assert t[i - 1 + k] == sep[k]; }
      }
      if OccursAt(sep, s, i) {
        forall k | 0 <= k < |sep| ensures t[i - 1 + k] == sep[k] { assert s[i + k] == sep[k]; }
      }
    }
  }

  /** The same text with each field ended at the first separator; what is cut off goes to the next field. */
  function Tidy(fields: seq<string>, seps: seq<string>): (tidy: seq<string>)
    requires |fields| == |seps| + 1
    ensures |tidy| == |fields|
    decreases |seps|
  {
    if seps == [] then fields
    else
      var f, sep := fields[0], seps[0];
      var j := FirstAt(sep, f);
      if j >= |f| then [f] + Tidy(fields[1..], seps[1..])
      else [f[..j]] + Tidy(Carried(f[j + |sep|..] + sep, fields[1..]), seps[1..])
  }

  function Carried(cut: string, fields: seq<string>): seq<string>
    requires fields != []
  {
    [cut + fields[0]] + fields[1..]
  }

  lemma FirstAtMisses(sep: string, s: string)
    requires sep != []
    ensures FirstAt(sep, s) == |s| <==> !Occurs(sep, s)
    ensures !Occurs(sep, s[..FirstAt(sep, s)])
  {
    var j := FirstAt(sep, s);
    var front := s[..j];
    forall i: nat | i <= |front| ensures !OccursAt(sep, front, i) {
      if OccursAt(sep, front, i) {
        forall k | 0 <= k < |sep| ensures s[i + k] == sep[k] { assert front[i + k] == sep[k]; }
        assert OccursAt(sep, s, i);
      }
    }
  }

  lemma WeaveCarried(cut: string, fields: seq<string>, seps: seq<string>)
    requires |fields| == |seps| + 1
    ensures Weave(Carried(cut, fields), seps) == cut + Weave(fields, seps)
  {
    if seps != [] {
      assert Carried(cut, fields)[1..] == fields[1..];
      var rest := Weave(fields[1..], seps[1..]);
      assert (cut + fields[0]) + seps[0] + rest == cut + (fields[0] + seps[0] + rest);
    }
  }

  lemma CutApart(s: string, sep: string, j: nat)
    requires OccursAt(sep, s, j)
    ensures s == s[..j] + sep + s[j + |sep|..]
  {
    assert s[j..j + |sep|] == sep;
  }

  /** What the first field keeps, and the fields it leaves to be tidied. */
  lemma TidyFirst(fields: seq<string>, seps: seq<string>) returns (first: string, rest: seq<string>)
    requires |fields| == |seps| + 1 && seps != [] && Separates(seps[0])
    ensures |rest| == |seps| && Tidy(fields, seps) == [first] + Tidy(rest, seps[1..])
    ensures !Occurs(seps[0], first)
    ensures first + seps[0] + Weave(rest, seps[1..]) == Weave(fields, seps)
    ensures if Occurs(seps[0], fields[0]) then first != fields[0] else first == fields[0] && rest == fields[1..]
  {
    var f, sep, more := fields[0], seps[0], Weave(fields[1..], seps[1..]);
    var j := FirstAt(sep, f);
    FirstAtMisses(sep, f);
    assert f[..|f|] == f;
    first, rest := f[..j], if j == |f| then fields[1..] else Carried(f[j + |sep|..] + sep, fields[1..]);
    if j < |f| {
      CutApart(f, sep, j);
      var cut := f[j + |sep|..];
      WeaveCarried(cut + sep, fields[1..], seps[1..]);
      Regroup(first, sep, cut, more);
    }
  }

  lemma Regroup(first: string, sep: string, cut: string, more: string)
    ensures first + sep + (cut + sep + more) == (first + sep + cut) + sep + more
  {
  }

  /** Tidying keeps the text, leaves clean fields, and changes exactly the fields that are not clean. */
  lemma {:induction false} TidyIsClean(fields: seq<string>, seps: seq<string>)
    requires |fields| == |seps| + 1 && AllSeparate(seps)
    ensures var tidy := Tidy(fields, seps);
            && Clean(tidy, seps) && Weave(tidy, seps) == Weave(fields, seps)
            && (tidy == fields <==> Clean(fields, seps))
    decreases |seps|
  {
    if seps != [] {
      assert Separates(seps[0]);
      assert forall i | 0 <= i < |seps[1..]| :: seps[1..][i] == seps[i + 1];
      var first, rest := TidyFirst(fields, seps);
      var tidy, end := Tidy(fields, seps), Tidy(rest, seps[1..]);
      TidyIsClean(rest, seps[1..]);
      assert tidy[0] == first && tidy[1..] == end;
      CleanTail(tidy, seps);
      CleanTail(fields, seps);
      assert fields == [fields[0]] + fields[1..];
    }
  }

  // ----- joined lines -----

  function Labelled(labels: seq<string>, fields: seq<string>): seq<string>
    requires |labels| == |fields|
  {
    if labels == [] then [] else [labels[0] + fields[0]] + Labelled(labels[1..], fields[1..])
  }

  /** What stands between a field and the next: a line feed and the next label. */
  function Separators(labels: seq<string>): (seps: seq<string>)
    ensures |labels| > 0 ==> |seps| == |labels| - 1
  {
    if |labels| < 2 then [] else ["\n" + labels[1]] + Separators(labels[1..])
  }

  lemma {:induction false} SeparatorsSeparate(labels: seq<string>)
    requires forall i | 0 <= i < |labels| :: '\n' !in labels[i]
    ensures AllSeparate(Separators(labels))
  {
    if |labels| >= 2 {
      assert forall i | 0 <= i < |labels[1..]| :: labels[1..][i] == labels[i + 1];
      SeparatorsSeparate(labels[1..]);
      assert ("\n" + labels[1])[1..] == labels[1];
    }
  }

  lemma JoinFirst(line: string, lines: seq<string>)
    requires lines != []
    ensures Join([line] + lines, "\n") == line + "\n" + Join(lines, "\n")
  {
    assert ([line] + lines)[1..] == lines;
  }

  lemma JoinTwo(lines: seq<string>)
    requires |lines| == 2
    ensures Join(lines, "\n") == lines[0] + "\n" + lines[1]
  {
    assert lines[1..] == [lines[1]];
  }

  /** Labelled lines, joined: the first label, the woven fields, and whatever lines follow. */
  lemma {:induction false} JoinLabelled(labels: seq<string>, fields: seq<string>, tail: seq<string>)
    requires |labels| == |fields| > 0 && tail != []
    ensures Join(Labelled(labels, fields) + tail, "\n")
         == labels[0] + Weave(fields, Separators(labels)) + "\n" + Join(tail, "\n")
    decreases |labels|
  {
    var line, rest := labels[0] + fields[0], Labelled(labels[1..], fields[1..]);
    assert [line] + rest + tail == [line] + (rest + tail);
    JoinFirst(line, rest + tail);
    if |labels| == 1 {
      assert rest + tail == tail;
    } else {
      JoinLabelled(labels[1..], fields[1..], tail);
      var woven := Weave(fields[1..], Separators(labels[1..]));
      assert Separators(labels)[1..] == Separators(labels[1..]);
      Regrouped(labels[0], fields[0], labels[1], woven, Join(tail, "\n"));
    }
  }

  lemma Regrouped(l: string, f: string, next: string, woven: string, tail: string)
    ensures (l + f) + "\n" + (next + woven + "\n" + tail) == l + (f + ("\n" + next) + woven) + "\n" + tail
  {
  }

  /** A last line without a line feed can be taken off a text. */
  lemma LastLine(x: string, l: string, y: string, m: string)
    requires OneLine(l) && OneLine(m) && x + "\n" + l == y + "\n" + m
    ensures x == y && l == m
  {
    if |x| < |y| {
      LaterLineFeed(x, l, y, m);
    } else if |y| < |x| {
      LaterLineFeed(y, m, x, l);
    } else {
      var s, t := x + "\n" + l, y + "\n" + m;
      assert s[..|x|] == x && t[..|y|] == y && s[|x| + 1..] == l && t[|y| + 1..] == m;
    }
  }

  lemma LaterLineFeed(x: string, l: string, y: string, m: string)
    requires OneLine(l) && |x| < |y|
    ensures x + "\n" + l != y + "\n" + m
  {
    var s, t := x + "\n" + l, y + "\n" + m;
    assert t[|y|] == '\n';
    if |y| < |s| { assert s[|y|] == l[|y| - |x| - 1]; }
  }

  lemma PrefixCancels(p: string, x: string, y: string)
    requires p + x == p + y
    ensures x == y
  {
    assert (p + x)[|p|..] == x && (p + y)[|p|..] == y;
  }
}
