/** The settings page's script helpers: HTML escaping of values inserted into
    the page, the CSS class of an activity-log line, and which tab is shown. */
module AdminJs {
  import opened Php
  import opened Exporter

  /** The characters `escapeHtml` rewrites. */
  const Special: set<char> := {'&', '<', '>', '"', '\''}

  /** The entity `escapeHtml` writes for a special character; any other
      character stands for itself. */
  function Entity(c: char): (e: string)
    ensures c in Special ==> |e| >= 4 && e[0] == '&' && e[|e| - 1] == ';'
    ensures c in Special ==> forall k :: 1 <= k < |e| ==> e[k] !in Special
    ensures c !in Special ==> e == [c]
  {
    if c == '&' then "&amp;"
    else if c == '<' then "&lt;"
    else if c == '>' then "&gt;"
    else if c == '"' then "&quot;"
    else if c == '\'' then "&#039;"
    else [c]
  }

  /** `s.replace(/c/g, rep)` for a one-character pattern. */
  function ReplaceChar(s: string, c: char, rep: string): string
    decreases |s|
  {
    if s == [] then [] else (if s[0] == c then rep else [s[0]]) + ReplaceChar(s[1..], c, rep)
  }

  /** `escapeHtml(str)`: the five replacements, '&' first. */
  function EscapeHtml(s: string): string {
    ReplaceChar(ReplaceChar(ReplaceChar(ReplaceChar(ReplaceChar(s, '&', "&amp;"), '<', "&lt;"), '>', "&gt;"),
                            '"', "&quot;"), '\'', "&#039;")
  }

  /** `s` with each character of `done` written as its entity: the string
      after the replacements for `done` have run. */
  function Encode(done: set<char>, s: string): string
    decreases |s|
  {
    if s == [] then [] else (if s[0] in done then Entity(s[0]) else [s[0]]) + Encode(done, s[1..])
  }

  lemma {:induction false} ReplaceCharAppend(a: string, b: string, c: char, rep: string)
    ensures ReplaceChar(a + b, c, rep) == ReplaceChar(a, c, rep) + ReplaceChar(b, c, rep)
    decreases |a|
  {
    if a != [] {
      assert (a + b)[0] == a[0] && (a + b)[1..] == a[1..] + b;
      ReplaceCharAppend(a[1..], b, c, rep);
      var h := if a[0] == c then rep else [a[0]];
      assert ReplaceChar(a + b, c, rep) == h + (ReplaceChar(a[1..], c, rep) + ReplaceChar(b, c, rep));
    } else {
      assert a + b == b;
    }
  }

  lemma {:induction false} ReplaceCharAbsent(s: string, c: char, rep: string)
    requires forall k :: 0 <= k < |s| ==> s[k] != c
    ensures ReplaceChar(s, c, rep) == s
    decreases |s|
  {
    if s != [] {
      ReplaceCharAbsent(s[1..], c, rep);
    }
  }

  lemma {:induction false} EncodeNothing(s: string)
    ensures Encode({}, s) == s
    decreases |s|
  {
    if s != [] {
      EncodeNothing(s[1..]);
    }
  }

  /** One replacement of `escapeHtml` adds its character to those encoded.
      It never touches the entities already written, since none of them
      holds `c`; that is why '&' has to go first. */
  lemma {:induction false} EscapeStep(done: set<char>, s: string, c: char)
    requires c in Special && c !in done && done <= Special
    requires c == '&' ==> done == {}
    ensures ReplaceChar(Encode(done, s), c, Entity(c)) == Encode(done + {c}, s)
    decreases |s|
  {
    if s != [] {
      var chunk := if s[0] in done then Entity(s[0]) else [s[0]];
      ReplaceCharAppend(chunk, Encode(done, s[1..]), c, Entity(c));
      EscapeStep(done, s[1..], c);
      if s[0] in done {
        assert chunk[0] == '&' != c;
        ReplaceCharAbsent(chunk, c, Entity(c));
      }
    }
  }

  /** `escapeHtml` writes every special character as its entity, once, and
      leaves every other character as it is. */
  lemma EscapeEncodes(s: string)
    ensures EscapeHtml(s) == Encode(Special, s)
  {
    EncodeNothing(s);
    assert {} + {'&'} == {'&'};
    assert {'&'} + {'<'} == {'&', '<'};
    assert {'&', '<'} + {'>'} == {'&', '<', '>'};
    assert {'&', '<', '>'} + {'"'} == {'&', '<', '>', '"'};
    EscapeStep({}, s, '&');
    EscapeStep({'&'}, s, '<');
    EscapeStep({'&', '<'}, s, '>');
    EscapeStep({'&', '<', '>'}, s, '"');
    EscapeStep({'&', '<', '>', '"'}, s, '\'');
    assert {'&', '<', '>', '"'} + {'\''} == Special;
  }

  /** `t.replace(/pat/g, rep)` for a literal pattern: matches found left to
      right, none overlapping. */
  function ReplaceText(t: string, pat: string, rep: string): string
    requires pat != []
    decreases |t|
  {
    if |t| < |pat| then t
    else if t[..|pat|] == pat then rep + ReplaceText(t[|pat|..], pat, rep)
    else [t[0]] + ReplaceText(t[1..], pat, rep)
  }

  /** The decoding the escaping is undone by: each entity back to its
      character, "&amp;" last. */
  function UnescapeHtml(s: string): string {
    ReplaceText(ReplaceText(ReplaceText(ReplaceText(ReplaceText(s, "&#039;", "'"), "&quot;", "\""),
                                        "&gt;", ">"), "&lt;", "<"), "&amp;", "&")
  }

  /** Text without '&' cannot start a match of an entity. */
  lemma {:induction false} PassThrough(u: string, r: string, pat: string, rep: string)
    requires pat != [] && pat[0] == '&'
    requires forall k :: 0 <= k < |u| ==> u[k] != '&'
    ensures ReplaceText(u + r, pat, rep) == u + ReplaceText(r, pat, rep)
    decreases |u|
  {
    var t := u + r;
    if u == [] {
      assert t == r;
    } else if |t| < |pat| {
    } else {
      assert t[..|pat|][0] == u[0];
      assert t[1..] == u[1..] + r;
      PassThrough(u[1..], r, pat, rep);
    }
  }

  /** Decoding `Entity(c)` over an entity: it is replaced when it is that
      entity and passed over otherwise, as the entities differ in their
      second character. */
  lemma ChunkDecode(y: char, r: string, c: char)
    requires y in Special && c in Special
    ensures ReplaceText(Entity(y) + r, Entity(c), [c]) ==
              (if y == c then [c] else Entity(y)) + ReplaceText(r, Entity(c), [c])
  {
    var t, pat := Entity(y) + r, Entity(c);
    if y == c {
      assert t[..|pat|] == pat && t[|pat|..] == r;
    } else if |t| < |pat| {
    } else {
      assert t[..|pat|][1] == Entity(y)[1] != pat[1];
      assert t[1..] == Entity(y)[1..] + r;
      PassThrough(Entity(y)[1..], r, pat, [c]);
    }
  }

  /** Decoding one entity takes its character out of those encoded, as long
      as '&' is still encoded, so that every '&' begins an entity. */
  lemma {:induction false} DecodeStep(done: set<char>, s: string, c: char)
    requires done <= Special && '&' in done && c in done
    ensures ReplaceText(Encode(done, s), Entity(c), [c]) == Encode(done - {c}, s)
    decreases |s|
  {
    if s != [] {
      DecodeStep(done, s[1..], c);
      if s[0] in done {
        ChunkDecode(s[0], Encode(done, s[1..]), c);
      } else {
        PassThrough([s[0]], Encode(done, s[1..]), Entity(c), [c]);
      }
    }
  }

  /** Undoing the entities, "&amp;" last, gives back the escaped string. */
  lemma UnescapeEscape(s: string)
    ensures UnescapeHtml(EscapeHtml(s)) == s
  {
    EscapeEncodes(s);
    DecodeStep(Special, s, '\'');
    assert Special - {'\''} == {'&', '<', '>', '"'};
    DecodeStep({'&', '<', '>', '"'}, s, '"');
    assert {'&', '<', '>', '"'} - {'"'} == {'&', '<', '>'};
    DecodeStep({'&', '<', '>'}, s, '>');
    assert {'&', '<', '>'} - {'>'} == {'&', '<'};
    DecodeStep({'&', '<'}, s, '<');
    assert {'&', '<'} - {'<'} == {'&'};
    DecodeStep({'&'}, s, '&');
    assert {'&'} - {'&'} == {};
    EncodeNothing(s);
  }

  /** `r[i..]` begins with the entity of a special character. */
  predicate EntityAt(r: string, i: nat) {
    exists c :: c in Special && i + |Entity(c)| <= |r| && r[i..i + |Entity(c)|] == Entity(c)
  }

  /** `r` holds none of `< > " '`, and each of its '&' begins an entity. */
  predicate Safe(r: string) {
    forall i :: 0 <= i < |r| ==> r[i] !in {'<', '>', '"', '\''} && (r[i] == '&' ==> EntityAt(r, i))
  }

  /** The fully encoded string is safe. */
  lemma {:induction false} EncodedSafe(s: string)
    ensures Safe(Encode(Special, s))
    decreases |s|
  {
    if s != [] {
      var chunk := if s[0] in Special then Entity(s[0]) else [s[0]];
      EncodedSafe(s[1..]);
      ChunkSafe(s[0]);
      SafeConcat(chunk, Encode(Special, s[1..]));
    }
  }

  /** What one character encodes to is safe. */
  lemma ChunkSafe(c: char)
    ensures Safe(if c in Special then Entity(c) else [c])
  {
    if c in Special {
      var e := Entity(c);
      assert e[0..|e|] == e;
      assert EntityAt(e, 0);
    }
  }

  lemma SafeConcat(a: string, b: string)
    requires Safe(a) && Safe(b)
    ensures Safe(a + b)
  {
    var r := a + b;
    forall i | 0 <= i < |r| ensures r[i] !in {'<', '>', '"', '\''} && (r[i] == '&' ==> EntityAt(r, i)) {
      if i < |a| {
        assert r[i] == a[i];
        if a[i] == '&' {
          EntityAtLeft(a, b, i);
        }
      } else {
        assert r[i] == b[i - |a|];
        if b[i - |a|] == '&' {
          EntityAtRight(a, b, i - |a|);
        }
      }
    }
  }

  lemma EntityAtLeft(a: string, b: string, i: nat)
    requires EntityAt(a, i)
    ensures EntityAt(a + b, i)
  {
    var c :| c in Special && i + |Entity(c)| <= |a| && a[i..i + |Entity(c)|] == Entity(c);
    assert (a + b)[i..i + |Entity(c)|] == a[i..i + |Entity(c)|];
  }

  lemma EntityAtRight(a: string, b: string, j: nat)
    requires EntityAt(b, j)
    ensures EntityAt(a + b, |a| + j)
  {
    var c :| c in Special && j + |Entity(c)| <= |b| && b[j..j + |Entity(c)|] == Entity(c);
    assert (a + b)[|a| + j..|a| + j + |Entity(c)|] == b[j..j + |Entity(c)|];
  }

  /** `escapeHtml`'s output contains no `< > " '`, and every '&' in it starts
      one of the five entities. */
  lemma EscapeSafe(s: string)
    ensures Safe(EscapeHtml(s))
  {
    EscapeEncodes(s);
    EncodedSafe(s);
  }

  lemma {:induction false} EncodePlain(s: string)
    requires forall k :: 0 <= k < |s| ==> s[k] !in Special
    ensures Encode(Special, s) == s
    decreases |s|
  {
    if s != [] {
      EncodePlain(s[1..]);
    }
  }

  /** Text without special characters comes out of `escapeHtml` unchanged. */
  lemma EscapePlain(s: string)
    requires forall k :: 0 <= k < |s| ==> s[k] !in Special
    ensures EscapeHtml(s) == s
  {
    EscapeEncodes(s);
    EncodePlain(s);
  }

  /** The CSS class `fetchLogs` gives a log line. */
  function LogClass(line: string): (cls: string)
    ensures cls == "log-error" <==> Contains(line, "[error]")
    ensures cls == "log-warning" <==> !Contains(line, "[error]") && Contains(line, "[warning]")
    ensures cls == "log-info" <==> !Contains(line, "[error]") && !Contains(line, "[warning]")
  {
    if Contains(line, "[error]") then "log-error"
    else if Contains(line, "[warning]") then "log-warning"
    else "log-info"
  }

  /** A line logged with type "error" is shown as an error. */
  lemma ErrorLinesShown(time: string, text: string)
    ensures LogClass(LogLine(time, Message("error", text))) == "log-error"
  {
    assert LogLine(time, Message("error", text)) == "[" + time + "] " + "[error]" + (" " + text);
    ContainsInMiddle("[" + time + "] ", "[error]", " " + text);
  }

  /** The deployer's failures are logged with type "info" but begin with
      "[error]", so they are shown as errors too. */
  lemma TaggedErrorLinesShown(time: string, text: string)
    ensures LogClass(LogLine(time, Message("info", "[error] " + text))) == "log-error"
  {
    assert LogLine(time, Message("info", "[error] " + text)) == "[" + time + "] [info] " + "[error]" + (" " + text);
    ContainsInMiddle("[" + time + "] [info] ", "[error]", " " + text);
  }

  /** A navigation tab: its `data-target` and whether it has the `active` class. */
  datatype Tab = Tab(target: string, active: bool)

  /** `location.hash` without its leading '#'. */
  function StripHash(hash: string): (h: string)
    ensures hash != [] && hash[0] == '#' ==> h == hash[1..]
    ensures (hash == [] || hash[0] != '#') ==> h == hash
  {
    if hash != [] && hash[0] == '#' then hash[1..] else hash
  }

  /** Some tab has `target` as its `data-target`. */
  predicate HasTab(tabs: seq<Tab>, target: string) {
    exists i :: 0 <= i < |tabs| && tabs[i].target == target
  }

  /** The target of the first active tab, if there is one. */
  function FirstActive(tabs: seq<Tab>): (r: Option<string>)
    ensures r.None? <==> forall i :: 0 <= i < |tabs| ==> !tabs[i].active
    ensures r.Some? ==> exists i :: 0 <= i < |tabs| && tabs[i].active && tabs[i].target == r.value &&
                                    forall j :: 0 <= j < i ==> !tabs[j].active
    decreases |tabs|
  {
    if tabs == [] then None
    else if tabs[0].active then Some(tabs[0].target)
    else
      var r := FirstActive(tabs[1..]);
      if r.Some? then
        var i :| 0 <= i < |tabs[1..]| && tabs[1..][i].active && tabs[1..][i].target == r.value &&
                 forall j :: 0 <= j < i ==> !tabs[1..][j].active;
        assert tabs[i + 1] == tabs[1..][i];
        r
      else r
  }

  /** `restoreInitialTab()`: the tab the URL hash names, else the active tab,
      else the activity log. */
  function InitialTab(hash: string, tabs: seq<Tab>): (t: string)
    ensures var h := StripHash(hash);
            && (h != [] && HasTab(tabs, h) ==> t == h)
            && (!(h != [] && HasTab(tabs, h)) && FirstActive(tabs).Some? ==> t == FirstActive(tabs).value)
            && (!(h != [] && HasTab(tabs, h)) && FirstActive(tabs).None? ==> t == "activity-log")
    ensures t == "activity-log" || HasTab(tabs, t)
  {
    var h := StripHash(hash);
    if h != [] && HasTab(tabs, h) then h
    else if FirstActive(tabs).Some? then FirstActive(tabs).value
    else "activity-log"
  }

  /** `openTab(target)` on the tabs and the ids of the content panes: the
      new tabs, and which panes are displayed. */
  function OpenTab(tabs: seq<Tab>, panes: seq<string>, target: string): (r: (seq<Tab>, seq<bool>))
    ensures |r.0| == |tabs| && |r.1| == |panes|
    ensures forall i :: 0 <= i < |tabs| ==> r.0[i].target == tabs[i].target && (r.0[i].active <==> tabs[i].target == target)
    ensures forall i :: 0 <= i < |panes| ==> (r.1[i] <==> panes[i] == "tab-" + target)
  {
    (seq(|tabs|, i requires 0 <= i < |tabs| => Tab(tabs[i].target, tabs[i].target == target)),
     seq(|panes|, i requires 0 <= i < |panes| => panes[i] == "tab-" + target))
  }

  /** Opening a tab that exists makes it the active one that is found when
      the page is restored without a hash. */
  lemma OpenedTabRestored(tabs: seq<Tab>, panes: seq<string>, target: string)
    requires HasTab(tabs, target)
    ensures InitialTab("", OpenTab(tabs, panes, target).0) == target
  {
    var after := OpenTab(tabs, panes, target).0;
    var i :| 0 <= i < |tabs| && tabs[i].target == target;
    assert after[i].active;
    var r := FirstActive(after);
    var k :| 0 <= k < |after| && after[k].active && after[k].target == r.value;
  }

  /** Opening the same tab twice leaves things as opening it once. */
  lemma OpenTabIdempotent(tabs: seq<Tab>, panes: seq<string>, target: string)
    ensures OpenTab(OpenTab(tabs, panes, target).0, panes, target) == OpenTab(tabs, panes, target)
  {
    var once := OpenTab(tabs, panes, target);
    var twice := OpenTab(once.0, panes, target);
    assert forall i :: 0 <= i < |tabs| ==> twice.0[i] == once.0[i];
    assert twice.0 == once.0 && twice.1 == once.1;
  }
}
