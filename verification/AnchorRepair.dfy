/** The repair of a whole bundle of documents, one atomic write a document. */
module AnchorRepair {
  import opened Anchors

  /** A knowledge document; `rest` stands for everything but its anchors. */
  datatype Document = Document(path: string, anchors: seq<Anchor>, rest: string)

  datatype Repair = Repair(document: string, source: string, symbol: string,
                           fromStart: int, fromEnd: int, toStart: int, toEnd: int)

  /** The documents with the moved anchors' coordinates rewritten and nothing else. */
  function RepairedAnchors(s: Sources, anchors: seq<Anchor>): (r: seq<Anchor>)
    ensures |r| == |anchors| && forall i | 0 <= i < |r| :: r[i] == Repaired(s, anchors[i])
  {
    seq(|anchors|, i requires 0 <= i < |anchors| => Repaired(s, anchors[i]))
  }

  function RepairedDocument(s: Sources, d: Document): Document
  {
    d.(anchors := RepairedAnchors(s, d.anchors))
  }

  function RepairedDocuments(s: Sources, docs: seq<Document>): (r: seq<Document>)
    ensures |r| == |docs| && forall i | 0 <= i < |r| :: r[i] == RepairedDocument(s, docs[i])
  {
    seq(|docs|, i requires 0 <= i < |docs| => RepairedDocument(s, docs[i]))
  }

  /** The first `done` documents repaired, the others as they were. */
  function PartlyRepaired(s: Sources, docs: seq<Document>, done: nat): (r: seq<Document>)
    requires done <= |docs|
    ensures |r| == |docs|
  {
    RepairedDocuments(s, docs)[..done] + docs[done..]
  }

  lemma PartlyNext(s: Sources, docs: seq<Document>, done: nat)
    requires done < |docs|
    ensures PartlyRepaired(s, docs, done + 1) == PartlyRepaired(s, docs, done)[done := RepairedDocument(s, docs[done])]
    ensures PartlyRepaired(s, docs, done)[done] == docs[done]
  {
    hide RepairedDocument;
  }

  predicate Moves(s: Sources, a: Anchor)
  {
    Check(s, a).status.Moved? && Check(s, a).movedStart >= 1
  }

  /** What is reported for the first `n` anchors of a document, in order. */
  function AnchorReports(s: Sources, path: string, anchors: seq<Anchor>, n: nat): seq<Repair>
    requires n <= |anchors|
  {
    if n == 0 then []
    else
      var a := anchors[n - 1];
      var r := Check(s, a);
      AnchorReports(s, path, anchors, n - 1) +
      if Moves(s, a) then [Repair(path, a.path, a.symbol, a.lineStart, a.lineEnd, r.movedStart, r.movedEnd)] else []
  }

  function Reports(s: Sources, docs: seq<Document>, n: nat): seq<Repair>
    requires n <= |docs|
  {
    if n == 0 then []
    else Reports(s, docs, n - 1) + AnchorReports(s, docs[n - 1].path, docs[n - 1].anchors, |docs[n - 1].anchors|)
  }

  /** The bundle on disk, and for each coming write whether it is refused. */
  class Repository {
    var docs: seq<Document>
    var refusals: seq<bool>

    constructor (docs: seq<Document>, refusals: seq<bool>)
      ensures this.docs == docs && this.refusals == refusals
    {
      this.docs, this.refusals := docs, refusals;
    }

    /** Replaces one document, or leaves it as it was and fails. */
    method Write(i: nat, doc: Document) returns (failed: bool)
      requires i < |docs|
      modifies this
      ensures failed == (old(refusals) != [] && old(refusals)[0])
      ensures refusals == if old(refusals) == [] then [] else old(refusals)[1..]
      ensures docs == if failed then old(docs) else old(docs)[i := doc]
    {
      failed := refusals != [] && refusals[0];
      if refusals != [] {
        refusals := refusals[1..];
      }
      if !failed {
        docs := docs[i := doc];
      }
    }

    /** Rewrites the coordinates of the moved anchors of one listed document. */
    method RepairDocument(s: Sources, doc: Document) returns (r: Document, changed: bool, repairs: seq<Repair>)
      ensures r == RepairedDocument(s, doc) && changed == (repairs != [])
      ensures changed <==> exists i :: 0 <= i < |doc.anchors| && Moves(s, doc.anchors[i])
      ensures repairs == AnchorReports(s, doc.path, doc.anchors, |doc.anchors|)
    {
      hide Check;
      var anchors := doc.anchors;
      changed, repairs := false, [];
      for i := 0 to |doc.anchors|
        invariant |anchors| == |doc.anchors| && changed == (repairs != [])
        invariant changed <==> exists j :: 0 <= j < i && Moves(s, doc.anchors[j])
        invariant forall j | 0 <= j < i :: anchors[j] == Repaired(s, doc.anchors[j])
        invariant forall j | i <= j < |anchors| :: anchors[j] == doc.anchors[j]
        invariant repairs == AnchorReports(s, doc.path, doc.anchors, i)
      {
        var anchor := anchors[i];
        var check := CheckAnchorResolved(s, anchor);
        if !check.status.Moved? || check.movedStart < 1 {
          continue;
        }
        repairs := repairs + [Repair(doc.path, anchor.path, anchor.symbol, anchor.lineStart, anchor.lineEnd,
                                     check.movedStart, check.movedEnd)];
        anchors := anchors[i := anchor.(lineStart := check.movedStart, lineEnd := check.movedEnd)];
        changed := true;
      }
      assert anchors == RepairedAnchors(s, doc.anchors);
      r := doc.(anchors := anchors);
    }

    /** Repairs every document until a write is refused: `done` of them are repaired, the others are as they were. */
    method RepairAnchors(s: Sources) returns (repairs: seq<Repair>, failed: bool, ghost done: nat)
      modifies this
      ensures done <= |old(docs)| && (failed <==> done < |old(docs)|)
      ensures docs == PartlyRepaired(s, old(docs), done)
      ensures repairs == Reports(s, old(docs), if failed then done + 1 else done)
      ensures failed ==> old(refusals) != []
    {
      var listed := docs;
      repairs, failed, done := [], false, 0;
      assert PartlyRepaired(s, listed, 0) == listed;
      hide PartlyRepaired;
      for i := 0 to |listed|
        invariant |docs| == |listed| && !failed && done == i
        invariant refusals != [] ==> old(refusals) != []
        invariant docs == PartlyRepaired(s, listed, i)
        invariant repairs == Reports(s, listed, i)
      {
        hide RepairedDocument, AnchorReports, Moves, Check;
        PartlyNext(s, listed, i);
        var doc, changed, found := RepairDocument(s, listed[i]);
        repairs := repairs + found;
        if !changed {
          UnchangedDocument(s, listed[i]);
        } else {
          var refused := Write(i, doc);
          if refused {
            failed := true;
            return;
          }
        }
        done := i + 1;
      }
    }
  }

  lemma UnchangedDocument(s: Sources, d: Document)
    requires !exists i :: 0 <= i < |d.anchors| && Moves(s, d.anchors[i])
    ensures RepairedDocument(s, d) == d
  {
    hide Check;
    assert RepairedAnchors(s, d.anchors) == d.anchors;
  }

  lemma DocumentIsIdempotent(s: Sources, d: Document)
    ensures RepairedDocument(s, RepairedDocument(s, d)) == RepairedDocument(s, d)
  {
    hide Check, Repaired;
    var once := RepairedAnchors(s, d.anchors);
    forall i | 0 <= i < |once| ensures Repaired(s, once[i]) == once[i] {
      RepairIsIdempotent(s, d.anchors[i]);
    }
    assert RepairedAnchors(s, once) == once;
  }

  /** A run that was refused or interrupted after `done` documents, then a whole run, ends as one whole run does;
      with `done` all documents, a second run changes nothing. */
  lemma RepairResumes(s: Sources, docs: seq<Document>, done: nat)
    requires done <= |docs|
    ensures RepairedDocuments(s, PartlyRepaired(s, docs, done)) == RepairedDocuments(s, docs)
  {
    hide RepairedDocument;
    var mixed := PartlyRepaired(s, docs, done);
    forall i | 0 <= i < |docs| ensures RepairedDocument(s, mixed[i]) == RepairedDocument(s, docs[i]) {
      if i < done {
        DocumentIsIdempotent(s, docs[i]);
      }
    }
  }

  /** After a whole run every anchor pinned by lines that had moved checks current, and none of them is moved. */
  lemma RepairLeavesNoneMoved(s: Sources, docs: seq<Document>, i: nat, j: nat)
    requires i < |docs| && j < |docs[i].anchors| && ByLines(s, docs[i].anchors[j])
    ensures var a := docs[i].anchors[j]; var b := RepairedDocuments(s, docs)[i].anchors[j];
      && (Check(s, a).status.Moved? ==> Check(s, b).status.Current?)
      && (!Check(s, a).status.Moved? ==> b == a)
      && b.(lineStart := a.lineStart, lineEnd := a.lineEnd) == a
  {
    hide Check;
    if Check(s, docs[i].anchors[j]).status.Moved? {
      RepairedIsCurrent(s, docs[i].anchors[j]);
    }
  }
}
