/** The parrot's stored chat messages, and when a list of them is complete enough to replay. */
module ParrotMessages {
  import opened Wrappers

  datatype Call = Call(id: string, name: Option<string>, arguments: string)

  datatype Message =
    | User(text: string, censored: bool)
    | Answer(text: string)
    | Calls(calls: seq<Call>, preamble: Option<string>)
    | ToolRow(id: string, content: string)

  /** The row at `p` answers the call at the same place of the nearest call list before it. */
  predicate OwnedBy(s: seq<Message>, p: nat, c: nat) {
    && c < p < |s| && s[p].ToolRow? && s[c].Calls?
    && p - c <= |s[c].calls| && s[c].calls[p - c - 1].id == s[p].id
    && forall j :: c < j < p ==> s[j].ToolRow?
  }

  /** Every tool row is kept together with its call. */
  ghost predicate OwnedRows(s: seq<Message>) {
    forall p :: 0 <= p < |s| && s[p].ToolRow? ==> exists c :: OwnedBy(s, p, c)
  }

  lemma OwnedRowsConcat(a: seq<Message>, b: seq<Message>)
    requires OwnedRows(a) && OwnedRows(b)
    ensures OwnedRows(a + b)
  {
    var s := a + b;
    forall p | 0 <= p < |s| && s[p].ToolRow? ensures exists c :: OwnedBy(s, p, c) {
      if p < |a| {
        assert a[p].ToolRow?;
        var c: nat :| OwnedBy(a, p, c);
        assert OwnedBy(s, p, c);
      } else {
        assert b[p - |a|].ToolRow?;
        var c: nat :| OwnedBy(b, p - |a|, c);
        assert OwnedBy(s, p, c + |a|);
      }
    }
  }

  /** A suffix that starts at a user message has all the calls of its tool rows. */
  lemma OwnedRowsFromUser(s: seq<Message>, k: nat)
    requires OwnedRows(s) && k <= |s| && (k < |s| ==> s[k].User?)
    ensures OwnedRows(s[k..])
  {
    var t := s[k..];
    forall p | 0 <= p < |t| && t[p].ToolRow? ensures exists c :: OwnedBy(t, p, c) {
      assert s[p + k].ToolRow?;
      var c: nat :| OwnedBy(s, p + k, c);
      assert p > 0 && !s[k].ToolRow? && c >= k;
      assert OwnedBy(t, p, c - k);
    }
  }
}
