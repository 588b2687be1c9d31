/** The running sessions behind a list of containers: one row per agent and directory. */
module Sessions {
  import opened Agents

  /** A container as listed; a missing label reads as empty. */
  datatype Container = Container(role: string, names: seq<string>, agent: string, project: string, created: int)

  datatype Key = Key(agent: string, dir: string)

  datatype Session = Session(key: Key, since: int)

  /** strings.TrimPrefix(s, "/"). */
  function TrimSlash(s: string): string {
    if s != "" && s[0] == '/' then s[1..] else s
  }

  /** The containers that stand for a session: no proxy, no Ollama sidecar, both labels set, a
      known agent. */
  predicate Eligible(c: Container) {
    && c.role != "proxy"
    && !(c.names != [] && TrimSlash(c.names[0]) == OLLAMA)
    && c.agent != "" && c.project != ""
    && c.agent in AGENTS
  }

  function KeyOf(c: Container): Key {
    Key(c.agent, c.project)
  }

  /** s is the session of some eligible container and starts with the earliest of them. */
  ghost predicate IsRow(cs: seq<Container>, s: Session) {
    && (exists c :: c in cs && Eligible(c) && KeyOf(c) == s.key && c.created == s.since)
    && forall c :: c in cs && Eligible(c) && KeyOf(c) == s.key ==> s.since <= c.created
  }

  /** The map built so far holds exactly the rows of the containers read so far. */
  ghost predicate Summarizes(seen: map<Key, Session>, cs: seq<Container>) {
    && (forall k :: k in seen ==> seen[k].key == k && IsRow(cs, seen[k]))
    && (forall c :: c in cs && Eligible(c) ==> KeyOf(c) in seen)
  }

  /** One more container changes at most the row of its own key. */
  lemma SummarizeStep(seen: map<Key, Session>, cs: seq<Container>, c: Container)
    requires Summarizes(seen, cs)
    ensures Summarizes(
              if Eligible(c) && (KeyOf(c) in seen ==> c.created < seen[KeyOf(c)].since)
              then seen[KeyOf(c) := Session(KeyOf(c), c.created)] else seen,
              cs + [c])
  {
    hide Eligible;
    var k := KeyOf(c);
    var next := if Eligible(c) && (k in seen ==> c.created < seen[k].since)
                then seen[k := Session(k, c.created)] else seen;
    var all := cs + [c];
    assert forall x :: x in all <==> x in cs || x == c;
    forall j | j in next
      ensures IsRow(all, next[j])
    {
      if j in seen && next[j] == seen[j] {
        assert IsRow(cs, seen[j]);
        var w :| w in cs && Eligible(w) && KeyOf(w) == j && w.created == seen[j].since;
        assert w in all;
      } else {
        assert c in all;
        if j in seen {
          assert IsRow(cs, seen[j]);
        }
      }
    }
  }

  /** activeSessionsFromContainers: one row per eligible agent and directory, with the earliest
      start, in no particular order, and nothing else. */
  method ActiveSessions(cs: seq<Container>) returns (rows: seq<Session>)
    ensures forall s :: s in rows <==> IsRow(cs, s)
    ensures forall i, j :: 0 <= i < j < |rows| ==> rows[i].key != rows[j].key
  {
    hide IsRow;
    var seen: map<Key, Session> := map[];
    for i := 0 to |cs|
      invariant Summarizes(seen, cs[..i])
    {
      var c := cs[i];
      SummarizeStep(seen, cs[..i], c);
      assert cs[..i] + [c] == cs[..i + 1];
      if c.role == "proxy" {
        continue;
      }
      if |c.names| > 0 && TrimSlash(c.names[0]) == OLLAMA {
        continue;
      }
      if c.agent == "" || c.project == "" {
        continue;
      }
      if c.agent !in AGENTS {
        continue;
      }
      var k := Key(c.agent, c.project);
      if k !in seen || c.created < seen[k].since {
        seen := seen[k := Session(k, c.created)];
      }
    }
    assert cs[..|cs|] == cs;

    rows := [];
    var left := seen.Keys;
    while left != {}
      invariant left <= seen.Keys
      invariant forall s :: s in rows <==> s.key in seen && s.key !in left && s == seen[s.key]
      invariant forall i, j :: 0 <= i < j < |rows| ==> rows[i].key != rows[j].key
      decreases |left|
    {
      var k :| k in left;
      assert forall i :: 0 <= i < |rows| ==> rows[i] in rows;
      rows, left := rows + [seen[k]], left - {k};
    }
    forall s
      ensures s in rows <==> IsRow(cs, s)
    {
      RowsAreSeen(seen, cs, s);
    }
  }

  lemma RowsAreSeen(seen: map<Key, Session>, cs: seq<Container>, s: Session)
    requires Summarizes(seen, cs)
    ensures IsRow(cs, s) <==> s.key in seen && s == seen[s.key]
  {
    if IsRow(cs, s) {
      OneRowPerKey(cs, s, seen[s.key]);
    }
  }

  /** A key has at most one row. */
  lemma OneRowPerKey(cs: seq<Container>, s: Session, t: Session)
    requires IsRow(cs, s) && IsRow(cs, t) && s.key == t.key
    ensures s == t
  {
  }

  /** The containers that count, by their labels and names as Docker lists them. */
  predicate Counts(c: Container) {
    && c.role != "proxy"
    && (c.names == [] || (c.names[0] != "smithjail-ollama" && c.names[0] != "/smithjail-ollama"))
    && c.agent in {"claude", "gemini", "codex", "hermes", "hermes-local"}
    && c.project != ""
  }

  lemma CountsExact(c: Container)
    ensures Eligible(c) <==> Counts(c)
  {
    if c.names != [] && TrimSlash(c.names[0]) == OLLAMA && c.names[0] != OLLAMA {
      assert c.names[0] == "/" + c.names[0][1..];
    }
    if c.names != [] && c.names[0] == "/smithjail-ollama" {
      assert c.names[0][1..] == OLLAMA;
    }
  }

  /** The rows, by the containers as Docker lists them: a row stands for some container that counts, with
      its agent, its directory and its start, and no container of the same agent and directory that
      counts is older; and every container that counts has its row. */
  lemma RowsExact(cs: seq<Container>, s: Session)
    ensures IsRow(cs, s) <==>
            && (exists c :: c in cs && Counts(c) && s == Session(Key(c.agent, c.project), c.created))
            && forall c :: c in cs && Counts(c) && c.agent == s.key.agent && c.project == s.key.dir ==>
                s.since <= c.created
  {
    hide Eligible, Counts;
    forall c
      ensures Eligible(c) <==> Counts(c)
    {
      CountsExact(c);
    }
  }

  /** The order in which Docker lists the containers does not matter. */
  lemma OrderIrrelevant(cs: seq<Container>, ds: seq<Container>, s: Session)
    requires multiset(cs) == multiset(ds)
    ensures IsRow(cs, s) <==> IsRow(ds, s)
  {
    assert forall c :: c in cs <==> c in multiset(cs);
    assert forall c :: c in ds <==> c in multiset(ds);
  }
}
