/**
 * The stored archive settings of a tag (RPCExp/Store/Entities/ArchiveCfg.cs) and
 * `CopyFrom`, which overwrites them from another object.
 */
module ArchiveConfig {
  import opened Wrappers
  import opened Numeric
  import opened Store

  /** The eight properties of an `ArchiveCfg`. */
  datatype ArchiveFields = ArchiveFields(
    id: int, name: string, description: string, tag: Option<TagCfg>, tagCfgId: int,
    periodMaxSec: Int32, periodMinSec: Int32, hystProc: real)

  /** The properties after copying `src` onto `dst`: the identity and the tag key stay, the six settings are replaced. */
  function Copied(dst: ArchiveFields, src: ArchiveFields): (r: ArchiveFields)
    ensures r.id == dst.id && r.tagCfgId == dst.tagCfgId
    ensures r.name == src.name && r.description == src.description && r.tag == src.tag
    ensures r.periodMaxSec == src.periodMaxSec && r.periodMinSec == src.periodMinSec && r.hystProc == src.hystProc
  {
    src.(id := dst.id, tagCfgId := dst.tagCfgId)
  }

  /** Copying twice from the same source is copying once; the later of two sources wins; a config copied onto itself is unchanged. */
  lemma CopiedAlgebra(d: ArchiveFields, s: ArchiveFields, t: ArchiveFields)
    ensures Copied(Copied(d, s), s) == Copied(d, s)
    ensures Copied(Copied(d, s), t) == Copied(d, t)
    ensures Copied(d, d) == d
  {
  }

  /** Two configs with the same identity agree after both copy the same source. */
  lemma CopiedForgetsOldSettings(d1: ArchiveFields, d2: ArchiveFields, s: ArchiveFields)
    requires d1.id == d2.id && d1.tagCfgId == d2.tagCfgId
    ensures Copied(d1, s) == Copied(d2, s)
  {
  }

  class ArchiveCfg {
    var id: int
    var name: string
    var description: string
    var tag: Option<TagCfg>
    var tagCfgId: int
    var periodMaxSec: Int32
    var periodMinSec: Int32
    var hystProc: real

    /** A new entity: every property at its default (strings empty, no tag). */
    constructor()
      ensures Fields() == ArchiveFields(0, "", "", None, 0, 0, 0, 0.0)
    {
      id, name, description, tag, tagCfgId := 0, "", "", None, 0;
      periodMaxSec, periodMinSec, hystProc := 0, 0, 0.0;
    }

    function Fields(): ArchiveFields
      reads this
    {
      ArchiveFields(id, name, description, tag, tagCfgId, periodMaxSec, periodMinSec, hystProc)
    }

    /**
     * `CopyFrom(original)`: the six settings of `original`, read before any is
     * written, so a config may copy itself.  `false`, and nothing written, where the
     * cast to `ArchiveCfg` throws or `original` is `null`.
     */
    method CopyFrom(original: Original) returns (ok: bool)
      modifies this
      ensures ok <==> original.Archive?
      ensures ok ==> Fields() == Copied(old(Fields()), old(original.cfg.Fields()))
      ensures !ok ==> Fields() == old(Fields())
    {
      if !original.Archive? {
        return false;
      }
      var src := original.cfg;
      name := src.name;
      description := src.description;
      tag := src.tag;
      periodMaxSec := src.periodMaxSec;
      periodMinSec := src.periodMinSec;
      hystProc := src.hystProc;
      ok := true;
    }
  }

  /** What `CopyFrom` is handed: an `ArchiveCfg`, an object of another type, or `null`. */
  datatype Original = Archive(cfg: ArchiveCfg) | Other | Null
}
