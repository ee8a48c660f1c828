/**
 Appending documents together with their metadata rows: a row is checked before its document is
 stored, rows follow stored documents only, and the tail is sealed in bundles of a fixed size.
 */
module Appender {
  import opened Wrappers
  import opened LittleEndian
  import opened TextBlocks
  import opened Layout
  import opened Writer
  import M = Meta

  const BUNDLE_CAP: nat := 1000

  datatype Failure = BadRow(why: M.Error) | RowOverflow(why: M.Error) | CommitFailed(reason: Writer.Error)

  /** The row a document without metadata gets. */
  function Nulls(n: nat): M.Row {
    seq(n, _ => None)
  }

  class ArchiveAppender {
    const writer: ArchiveWriter
    const meta: M.MetaTableBuilder?
    var sinceSeal: nat
    var appended: nat

    /** Row `i` of the metadata describes stored document `i`, and the open bundle is not full. */
    ghost predicate Valid()
      reads this, writer, writer.curStrings, meta
    {
      && writer.Valid() && writer.compressor == NonEmpty(writer.dict)
      && (meta != null ==> meta.Valid() && |meta.rows| == |writer.stored|)
      && writer.bundleStartDoc + sinceSeal == |writer.docs| && sinceSeal < BUNDLE_CAP
    }

    /** How many documents each sealed bundle holds. */
    ghost function BundleCounts(): seq<nat>
      reads writer
    {
      Counts(writer.bundles)
    }

    /** After one more document: the open bundle has one more, or was sealed because it was full. */
    ghost predicate SealedAt(counts: seq<nat>, since: nat)
      reads this, writer
    {
      if since + 1 == BUNDLE_CAP then sinceSeal == 0 && BundleCounts() == counts + [BUNDLE_CAP]
      else sinceSeal == since + 1 && BundleCounts() == counts
    }

    constructor (w: ArchiveWriter, m: M.MetaTableBuilder?)
      requires w.bundleStartDoc == |w.docs| && w.Valid() && w.compressor == NonEmpty(w.dict)
      requires (m != null ==> m.Valid() && |m.rows| == |w.stored|)
      ensures Valid() && writer == w && meta == m && sinceSeal == 0 && appended == 0
    {
      writer, meta, sinceSeal, appended := w, m, 0, 0;
    }

    /**
     Adds a document and, if the archive carries metadata, its row. A bad row is refused before
     anything is written, a duplicate key drops the row with the document; only a string column
     that overflows fails after the document is already stored.
     */
    method AddInner(s: Stored, row: Option<M.Row>) returns (r: Result<bool, Failure>)
      requires Valid() && NodeRanges(s.text.nodes, |s.text.pool|) && |s.text.pool| < U32
      modifies this, writer, writer.curStrings, meta
      ensures fresh(writer.curStrings) || writer.curStrings == old(writer.curStrings)
      ensures r.Ok? ==> Valid() && (r.value <==> s.key !in old(writer.seen))
      ensures r == Ok(true) ==> writer.stored == old(writer.stored) + [s]
      ensures r == Ok(true) && meta != null ==>
                meta.schema == old(meta.schema)
                    && meta.rows == old(meta.rows) + [if row.Some? then row.value else Nulls(|old(meta.schema)|)]
      ensures r == Ok(true) ==> appended == old(appended) + 1 && SealedAt(old(BundleCounts()), old(sinceSeal))
      ensures r == Ok(false) ==>
              sinceSeal == old(sinceSeal) && writer.bundles == old(writer.bundles) && appended == old(appended)
      ensures r == Ok(false) || (r.Err? && r.error.BadRow?) ==>
              writer.stored == old(writer.stored) && (meta != null ==> meta.rows == old(meta.rows))
      ensures (r.Err? && r.error.BadRow?) <==>
              meta != null && row.Some? && M.ValidateRow(old(meta.schema), row.value).Some?
      ensures (r.Err? && r.error.RowOverflow?) <==>
              meta != null && s.key !in old(writer.seen)
                  && !(row.Some? && M.ValidateRow(old(meta.schema), row.value).Some?)
                  && M.Refused(old(meta.schema), old(meta.rows),
                               if row.Some? then row.value else Nulls(|old(meta.schema)|))
      ensures r.Err? && r.error.RowOverflow? ==> |writer.stored| == |meta.rows| + 1
    {
      if meta != null && row.Some? {
        var failure := M.ValidateRow(meta.schema, row.value);
        if failure.Some? {
          return Err(BadRow(failure.value));
        }
      }
      r := AddChecked(s, if row.Some? then row.value else if meta != null then Nulls(|meta.schema|) else []);
    }

    /** Adds a document whose row, if there is metadata, is `row`. */
    method AddChecked(s: Stored, row: M.Row) returns (r: Result<bool, Failure>)
      requires Valid() && NodeRanges(s.text.nodes, |s.text.pool|) && |s.text.pool| < U32
      modifies this, writer, writer.curStrings, meta
      ensures fresh(writer.curStrings) || writer.curStrings == old(writer.curStrings)
      ensures r.Ok? ==> Valid() && (r.value <==> s.key !in old(writer.seen))
      ensures r == Ok(true) ==> writer.stored == old(writer.stored) + [s]
      ensures r == Ok(true) && meta != null ==> meta.rows == old(meta.rows) + [row]
      ensures r == Ok(true) ==> appended == old(appended) + 1 && SealedAt(old(BundleCounts()), old(sinceSeal))
      ensures r == Ok(false) ==>
              sinceSeal == old(sinceSeal) && writer.bundles == old(writer.bundles) && appended == old(appended)
      ensures r == Ok(false) ==> writer.stored == old(writer.stored) && (meta != null ==> meta.rows == old(meta.rows))
      ensures meta != null ==> meta.schema == old(meta.schema)
      ensures r.Err? <==> meta != null && s.key !in old(writer.seen) && M.Refused(meta.schema, old(meta.rows), row)
      ensures r.Err? ==> r.error.RowOverflow? && |writer.stored| == |meta.rows| + 1
    {
      var isNew := writer.PushEntry(s);
      if !isNew {
        return Ok(false);
      }
      if meta != null {
        var failure := AddRow(row);
        if failure.Some? {
          return Err(failure.value);
        }
      }
      CountStored();
      return Ok(true);
    }

    method AddRow(row: M.Row) returns (failure: Option<Failure>)
      requires meta != null && meta.Valid()
      modifies meta
      ensures meta.schema == old(meta.schema) && (failure.Some? ==> failure.value.RowOverflow?)
      ensures failure.Some? <==> M.Refused(meta.schema, old(meta.rows), row)
      ensures meta.rows == old(meta.rows) + if failure == None then [row] else []
      ensures failure == None ==> meta.Valid()
    {
      var refused, k := meta.PushRow(row);
      failure := if refused.Some? then Some(RowOverflow(refused.value)) else None;
    }

    /** One more document since the last seal; a full bundle is sealed. */
    method CountStored()
      requires writer.Valid() && writer.compressor == NonEmpty(writer.dict)
      requires (meta != null ==> meta.Valid() && |meta.rows| == |writer.stored|)
      requires writer.bundleStartDoc + sinceSeal + 1 == |writer.docs| && sinceSeal < BUNDLE_CAP
      modifies this, writer
      ensures Valid() && writer.stored == old(writer.stored) && appended == old(appended) + 1
      ensures SealedAt(old(BundleCounts()), old(sinceSeal))
      ensures fresh(writer.curStrings) || writer.curStrings == old(writer.curStrings)
    {
      sinceSeal := sinceSeal + 1;
      if sinceSeal == BUNDLE_CAP {
        writer.SealBundle();
        sinceSeal := 0;
      }
      appended := appended + 1;
    }

    /**
     Hands the table to the writer and finishes the file. It fails exactly for a schema without
     fields on a non-empty archive, whose row count reads as 0.
     */
    method Commit() returns (r: Result<Bytes, Failure>, ghost footer: Footer)
      requires Valid()
      modifies writer
      ensures r.Err? <==> meta != null && old(meta.schema) == [] && |old(writer.stored)| > 0
      ensures r.Ok? ==> old(writer.out) <= r.value && FinishedAs(writer.fmt, r.value, writer.View(), footer)
      ensures r.Ok? ==> writer.stored == old(writer.stored) && (meta == null <==> footer.meta == None)
      ensures r.Ok? && meta != null ==>
              footer.meta == Some(M.TableOf(meta.schema, meta.columns))
              && M.TableSound(footer.meta.value, |writer.docs|)
    {
      writer.meta := if meta == null then None else Some(meta.Finish());
      ghost var n := |writer.docs|;
      if meta != null {
        M.RowCountIs(meta.schema, meta.columns, meta.rows);
        M.FinishedTableReads(meta.schema, meta.columns, meta.rows);
      }
      var file;
      file, footer := writer.Finish();
      return match file { case Ok(bytes) => Ok(bytes) case Err(e) => Err(CommitFailed(e)) }, footer;
    }
  }
}
