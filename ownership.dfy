/** The relation both servers keep between their records and the uploads directory: which
    file each record points at. Nothing in the database or the file system enforces it; it
    holds only as far as the handlers keep it. */
module Ownership {
  import opened Stores

  /** The path each record points at (`imageUrl`, `filePath`). */
  type Links = map<Id, Path>

  /** No record points at a missing file. */
  predicate Consistent(links: Links, files: set<Path>) {
    links.Values <= files
  }

  /** No two records point at the same file. */
  predicate Exclusive(links: Links) {
    forall i, j :: i in links && j in links && i != j ==> links[i] != links[j]
  }

  predicate Healthy(links: Links, files: set<Path>) {
    Consistent(links, files) && Exclusive(links)
  }

  /** Files no record points at. */
  function Orphans(links: Links, files: set<Path>): set<Path> {
    files - links.Values
  }

  /** Paths records point at that name no file. */
  function Dangling(links: Links, files: set<Path>): set<Path> {
    links.Values - files
  }

  lemma {:induction false} ValuesAdd(links: Links, id: Id, p: Path)
    requires id !in links
    ensures links[id := p].Values == links.Values + {p}
  {
    var after := links[id := p];
    forall q | q in links.Values ensures q in after.Values {
      var j :| j in links && links[j] == q;
      assert j in after && after[j] == q;
    }
    assert id in after && after[id] == p;
  }

  lemma {:induction false} ValuesRemove(links: Links, id: Id)
    requires Exclusive(links) && id in links
    ensures (links - {id}).Values == links.Values - {links[id]}
  {
    var after := links - {id};
    forall q | q in links.Values - {links[id]} ensures q in after.Values {
      var j :| j in links && links[j] == q;
      assert j in after && after[j] == q;
    }
  }

  lemma {:induction false} ValuesReplace(links: Links, id: Id, p: Path)
    requires Exclusive(links) && id in links
    ensures links[id := p].Values == links.Values - {links[id]} + {p}
  {
    ValuesRemove(links, id);
    ValuesAdd(links - {id}, id, p);
    assert links[id := p] == (links - {id})[id := p];
  }

  lemma {:induction false} ExclusiveReplace(links: Links, id: Id, p: Path)
    requires Exclusive(links)
    requires p !in links.Values || (id in links && p == links[id])
    ensures Exclusive(links[id := p])
  {
    var after := links[id := p];
    forall i, j | i in after && j in after && i != j ensures after[i] != after[j] {
      if i == id {
        assert links[j] in links.Values;
      } else if j == id {
        assert links[i] in links.Values;
      }
    }
  }

  /** A file that arrives at a path no record points at is one more orphan. */
  lemma ReceiveOrphan(links: Links, files: set<Path>, p: Path)
    requires p !in links.Values
    ensures Orphans(links, files + {p}) == Orphans(links, files) + {p}
  {
  }

  /** A new record pointing at a newly written file keeps the stores healthy and adds no
      orphan. */
  lemma {:induction false} AddHealthy(links: Links, files: set<Path>, id: Id, p: Path)
    requires Healthy(links, files) && id !in links && p !in files
    ensures Healthy(links[id := p], files + {p})
    ensures Orphans(links[id := p], files + {p}) == Orphans(links, files)
  {
    ValuesAdd(links, id, p);
    ExclusiveReplace(links, id, p);
  }

  /** Pointing a record at a newly written file and unlinking its old one keeps the stores
      healthy and adds no orphan. */
  lemma {:induction false} ReplaceHealthy(links: Links, files: set<Path>, id: Id, p: Path)
    requires Healthy(links, files) && id in links && p !in files
    ensures Healthy(links[id := p], files + {p} - {links[id]})
    ensures Orphans(links[id := p], files + {p} - {links[id]}) == Orphans(links, files)
  {
    ValuesReplace(links, id, p);
    ExclusiveReplace(links, id, p);
    assert links[id] in links.Values;
  }

  /** Dropping a record and unlinking its file keeps the stores healthy and adds no orphan;
      dropping the record alone keeps them healthy and orphans its file. */
  lemma {:induction false} RemoveHealthy(links: Links, files: set<Path>, id: Id)
    requires Healthy(links, files) && id in links
    ensures Healthy(links - {id}, files - {links[id]})
    ensures Orphans(links - {id}, files - {links[id]}) == Orphans(links, files)
    ensures Healthy(links - {id}, files)
    ensures Orphans(links - {id}, files) == Orphans(links, files) + {links[id]}
  {
    ValuesRemove(links, id);
    assert links[id] in links.Values;
  }
}
