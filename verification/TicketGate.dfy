/** From the ticket text to an admitted ticket or a refusal (launcher/ticket.py:179-348). */
module TicketGate {
  import opened Text
  import opened FileTree
  import opened TicketHeader
  import opened Contract
  import Carveout

  function Components(paths: seq<string>): (r: seq<Names>)
    ensures |r| == |paths|
    ensures forall k | 0 <= k < |paths| :: r[k] == Split(paths[k], '/') && r[k] != []
  {
    seq(|paths|, k requires 0 <= k < |paths| => Split(paths[k], '/'))
  }

  function EntryPaths(entries: seq<(Kind, string)>): (r: seq<string>)
    ensures |r| == |entries| && forall k | 0 <= k < |entries| :: r[k] == entries[k].1
  {
    seq(|entries|, k requires 0 <= k < |entries| => entries[k].1)
  }

  function EditPaths(entries: seq<(Kind, string)>): (r: seq<string>)
    ensures forall p :: p in r <==> (Edit, p) in entries
  {
    if entries == [] then []
    else
      var init, last := entries[..|entries| - 1], entries[|entries| - 1];
      assert entries == init + [last];
      EditPaths(init) + (if last.0 == Edit then [last.1] else [])
  }

  function TicketOf(h: Header): Ticket {
    Ticket(Components(EntryPaths(h.entries)), Components(EditPaths(h.entries)), Components(h.accepts))
  }

  /** A ticket holds the paths of all its entries, those to edit among them, and the accept paths, each
      split at its slashes. */
  lemma TicketIs(h: Header, rel: Names)
    ensures rel in TicketOf(h).declared <==> exists e :: e in h.entries && Split(e.1, '/') == rel
    ensures rel in TicketOf(h).edits <==> exists e :: e in h.entries && e.0 == Edit && Split(e.1, '/') == rel
    ensures rel in TicketOf(h).accepts <==> exists p :: p in h.accepts && Split(p, '/') == rel
  {
    hide Split;
    ComponentsAre(EntryPaths(h.entries), rel);
    ComponentsAre(EditPaths(h.entries), rel);
    ComponentsAre(h.accepts, rel);
    forall p ensures p in EntryPaths(h.entries) <==> exists e :: e in h.entries && e.1 == p {
      if p in EntryPaths(h.entries) {
        var k :| 0 <= k < |h.entries| && EntryPaths(h.entries)[k] == p;
        assert h.entries[k] in h.entries;
      }
      if e :| e in h.entries && e.1 == p {
        var k :| 0 <= k < |h.entries| && h.entries[k] == e;
        assert EntryPaths(h.entries)[k] == p;
      }
    }
    forall e | e in h.entries ensures e.1 in EntryPaths(h.entries) {}
  }

  lemma ComponentsAre(paths: seq<string>, rel: Names)
    ensures rel in Components(paths) <==> exists p :: p in paths && Split(p, '/') == rel
  {
    hide Split;
    if p :| p in paths && Split(p, '/') == rel {
      var k :| 0 <= k < |paths| && paths[k] == p;
      assert Components(paths)[k] == rel;
    }
    if rel in Components(paths) {
      var k :| 0 <= k < |paths| && Components(paths)[k] == rel;
      assert paths[k] in paths;
    }
  }

  method ValidateDeclared(fs: Tree, root: Names, declared: seq<string>) returns (ok: bool)
    ensures ok <==> forall rel | rel in Components(declared) :: rel != [] && Carveout.Carve(fs, root, rel).Some?
  {
    hide Carveout.Carve;
    ghost var all := Components(declared);
    for k := 0 to |declared|
      invariant forall i | 0 <= i < k :: Carveout.Carve(fs, root, all[i]).Some?
    {
      var carve := Carveout.DeclaredCarveout(fs, root, declared[k]);
      if carve.None? {
        assert all[k] in all;
        return false;
      }
    }
    ok := true;
  }

  /** `_validate_accept_paths`. */
  method ValidateAccepts(fs: Tree, root: Names, accepts: seq<string>, declared: seq<Names>) returns (ok: bool)
    ensures ok <==> forall rel | rel in Components(accepts) :: rel != [] && AcceptOk(fs, root, rel, declared)
  {
    hide Carveout.Carve, Walk;
    var all := Components(accepts);
    for k := 0 to |accepts|
      invariant forall i | 0 <= i < k :: AcceptOk(fs, root, all[i], declared)
    {
      var carve := Carveout.DeclaredCarveout(fs, root, accepts[k]);
      var rel := all[k];
      if carve.None? || rel[0] != "tests" || !IsFile(fs, root, rel) || rel in declared {
        assert rel in all && !AcceptOk(fs, root, rel, declared);
        return false;
      }
    }
    ok := true;
  }

  method AssertCreatePathsAreNew(fs: Tree, root: Names, declared: seq<Names>, edits: seq<Names>) returns (ok: bool)
    ensures ok <==> forall rel | rel in declared && rel !in edits :: !Exists(fs, root, rel)
  {
    hide Walk;
    for k := 0 to |declared|
      invariant forall i | 0 <= i < k :: declared[i] in edits || !Exists(fs, root, declared[i])
    {
      if declared[k] !in edits && Exists(fs, root, declared[k]) {
        return false;
      }
    }
    ok := true;
  }

  method AssertEditPathsAreNotProtected(fs: Tree, root: Names, edits: seq<Names>) returns (ok: bool)
    ensures ok <==> forall rel | rel in edits :: rel !in Protected(fs, root)
  {
    hide Protected;
    var protected := Protected(fs, root);
    for k := 0 to |edits|
      invariant forall i | 0 <= i < k :: edits[i] !in protected
    {
      if edits[k] in protected {
        return false;
      }
    }
    ok := true;
  }

  /** The gate refuses the ticket text (rc 13) or passes exactly what it declares. */
  method GateTicket(fs: Tree, root: Names, text: string) returns (r: Option<Ticket>)
    ensures r.Some? <==>
            && ReadHeader(text).Some?
            && var h := ReadHeader(text).value;
               Admitted(TicketOf(h), fs, root) && !(h.acceptNone && h.accepts != [])
    ensures r.Some? ==> r.value == TicketOf(ReadHeader(text).value)
  {
    hide Carveout.Carve, AcceptOk, Exists, Protected, ReadHeader;
    var parsed := ParseHeader(text);
    if parsed.None? {
      return None;
    }
    var h := parsed.value;
    var t := TicketOf(h);
    var ok := ValidateDeclared(fs, root, EntryPaths(h.entries));
    if ok { ok := ValidateAccepts(fs, root, h.accepts, t.declared); }
    if ok && h.acceptNone && h.accepts != [] { return None; }
    if ok { ok := AssertCreatePathsAreNew(fs, root, t.declared, t.edits); }
    if ok { ok := AssertEditPathsAreNotProtected(fs, root, t.edits); }
    r := if ok then Some(t) else None;
  }
}
