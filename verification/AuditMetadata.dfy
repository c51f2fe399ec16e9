/** Audit metadata and its sanitiser (dataruns/audit.py). */
module AuditMetadata {
  import opened Prelude

  /** A JSON value (RFC 8259); a number is the literal it is written as. */
  datatype Json =
    | Null
    | Bool(b: bool)
    | Num(literal: string)
    | Str(s: string)
    | Arr(items: seq<Json>)
    | Obj(fields: Metadata)

  /** A Python dict with string keys; its order plays no part in equality. */
  type Metadata = map<string, Json>

  const SECRET_METADATA_KEYS: set<string> := {
    "api_key", "api_v3_key", "access_token", "refresh_token", "password", "config", "authorization"
  }

  function Sanitize(m: Metadata): Metadata
    decreases Obj(m)
  {
    map k | k in m && k !in SECRET_METADATA_KEYS && (m[k].Obj? ==> Sanitize(m[k].fields) != map[]) ::
      if m[k].Obj? then Obj(Sanitize(m[k].fields)) else m[k]
  }

  /** The loop of the source: nested dicts are sanitised first and dropped when nothing is left. */
  method SanitizeAuditMetadata(metadata: Option<Metadata>) returns (sanitized: Metadata)
    ensures sanitized == if metadata.Some? then Sanitize(metadata.value) else map[]
    decreases metadata.Some?, if metadata.Some? then Obj(metadata.value) else Null
  {
    sanitized := map[];
    if metadata == None {
      return;
    }
    var m := metadata.value;
    var todo := m.Keys;
    while todo != {}
      invariant todo <= m.Keys
      invariant sanitized == map k | k in Sanitize(m) && k !in todo :: Sanitize(m)[k]
    {
      var key :| key in todo;
      todo := todo - {key};
      if key in SECRET_METADATA_KEYS {
        continue;
      }
      var value := m[key];
      if value.Obj? {
        var nested := SanitizeAuditMetadata(Some(value.fields));
        if nested != map[] {
          sanitized := sanitized[key := Obj(nested)];
        }
        continue;
      }
      sanitized := sanitized[key := value];
    }
  }

  /** The non-dict value reached by following keys through nested dicts, if there is one. */
  function LeafAt(m: Metadata, path: seq<string>): Option<Json>
    decreases path
  {
    if path == [] || path[0] !in m then None
    else if m[path[0]].Obj? then LeafAt(m[path[0]].fields, path[1..])
    else if |path| == 1 then Some(m[path[0]])
    else None
  }

  ghost predicate NoSecret(path: seq<string>) {
    forall key :: key in path ==> key !in SECRET_METADATA_KEYS
  }

  /** No secret key and no empty nested dict, at any depth reached through dicts. */
  ghost predicate Clean(m: Metadata)
    decreases Obj(m)
  {
    forall k :: k in m ==>
      k !in SECRET_METADATA_KEYS && (m[k].Obj? ==> m[k].fields != map[] && Clean(m[k].fields))
  }

  /** Sanitising keeps exactly the values whose path crosses no secret key, and changes none of them. */
  lemma {:induction false} SanitizeKeepsExactlyPublicLeaves(m: Metadata, path: seq<string>)
    ensures LeafAt(Sanitize(m), path) == if NoSecret(path) then LeafAt(m, path) else None
    decreases path
  {
    if path == [] {
    } else {
      var key, rest := path[0], path[1..];
      assert path == [key] + rest;
      if key in m && m[key].Obj? {
        SanitizeKeepsExactlyPublicLeaves(m[key].fields, rest);
      }
    }
  }

  lemma {:induction false} SanitizeIsClean(m: Metadata)
    ensures Clean(Sanitize(m))
    decreases Obj(m)
  {
    forall k | k in m && m[k].Obj? ensures Clean(Sanitize(m[k].fields)) {
      SanitizeIsClean(m[k].fields);
    }
  }

  /** The fixed points are exactly the clean dicts. */
  lemma {:induction false} FixedIffClean(m: Metadata)
    ensures Sanitize(m) == m <==> Clean(m)
    decreases Obj(m)
  {
    if Sanitize(m) == m {
      SanitizeIsClean(m);
    }
    if Clean(m) {
      forall k | k in m ensures k in Sanitize(m) && Sanitize(m)[k] == m[k] {
        if m[k].Obj? {
          FixedIffClean(m[k].fields);
        }
      }
    }
  }

  lemma SanitizeIdempotent(m: Metadata)
    ensures Sanitize(Sanitize(m)) == Sanitize(m)
  {
    SanitizeIsClean(m);
    FixedIffClean(Sanitize(m));
  }
}
