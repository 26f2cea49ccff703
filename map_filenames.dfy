/** Image filename parsing and deterministic position assignment: a file named
    `<key>_<role>.<ext>` is bucketed by role, the roles are ordered (main, close, model,
    model2, then the others ascending), each bucket is sorted, and positions 1..n are
    handed out in that order. */
module MapFilenames {
  import opened Wrappers
  import opened Text
  import opened Sorting
  import opened Grouping
  import opened Schemas
  import Constants

  /** A file as listed in the product's folder. */
  datatype RawImageFile = RawImageFile(driveFileId: string, filename: string, mimeType: Option<string>,
                                       sizeBytes: Option<nat>, modifiedTime: Option<string>)

  datatype ParsedFilename = ParsedFilename(productKey: string, role: string)

  // ---------------------------------------------------------------------------
  // parseFilename

  /** The part of the text after the underscore that names the role: everything before
      the last dot, unless there is no dot or the dot comes first. */
  function RoleSegment(remainder: string): string {
    var dot := LastIndexOf(remainder, '.');
    if dot > 0 then remainder[..dot] else remainder
  }

  /** A role segment as a role: `model` and `model2` verbatim, otherwise lower-cased with
      every character outside `[a-z0-9]` removed, or `misc` if nothing remains. */
  function NormalizeRole(segment: string): string {
    var lower := ToLower(segment);
    if lower == "model2" || lower == "model" then lower
    else
      var kept := Filter(lower, IsLowerAlnum);
      if kept == [] then "misc" else kept
  }

  /** `parseFilename`. */
  function ParseFilename(filename: string): Option<ParsedFilename> {
    var base := Trim(filename);
    var underscore := IndexOf(base, '_');
    if underscore <= 0 then None
    else
      var productKey := Trim(base[..underscore]);
      if productKey == [] then None
      else
        var roleSegment := Trim(RoleSegment(base[underscore + 1..]));
        if roleSegment == [] then None
        else Some(ParsedFilename(productKey, NormalizeRole(roleSegment)))
  }

  /** A string starting with a non-blank character does not trim to nothing. */
  lemma TrimNonEmpty(s: string)
    requires s != [] && !IsWhite(s[0])
    ensures Trim(s) != []
  {
    TrimStartByNoop(s, IsWhite);
  }

  /** Trimming adds no character. */
  lemma TrimKeepsAbsent(s: string, c: char)
    requires c !in s
    ensures c !in Trim(s)
  {
    var key := Trim(s);
    forall i | 0 <= i < |key|
      ensures key[i] != c
    {
      assert key[i] == s[|s| - |TrimStartBy(s, IsWhite)| + i];
    }
  }

  /** The name does not parse exactly when its trimmed form has no underscore, starts with
      one, or leaves a blank role segment after it; the key before the underscore is never
      blank because the name is trimmed first. */
  lemma ParseFilenameNone(filename: string)
    ensures var base := Trim(filename);
      ParseFilename(filename).None? <==>
        ('_' !in base || base[0] == '_' || Trim(RoleSegment(base[IndexOf(base, '_') + 1..])) == [])
  {
    var base := Trim(filename);
    var u := IndexOf(base, '_');
    if u > 0 {
      TrimNonEmpty(base[..u]);
    }
  }

  /** The product key is the trimmed text before the first underscore; it is not blank
      and holds no underscore. */
  lemma ParseFilenameKey(filename: string)
    requires ParseFilename(filename).Some?
    ensures var base := Trim(filename); var key := ParseFilename(filename).value.productKey;
      '_' in base && key == Trim(base[..IndexOf(base, '_')]) && key != [] && '_' !in key
  {
    var base := Trim(filename);
    var u := IndexOf(base, '_');
    ParsedKey(filename, base, u);
    BeforeFirst(base, u, '_');
    KeyBeforeUnderscore(base, u);
  }

  /** Where the product key of a parsed name comes from. */
  lemma ParsedKey(filename: string, base: string, u: int)
    requires ParseFilename(filename).Some?
    requires base == Trim(filename) && u == IndexOf(base, '_')
    ensures 0 < u < |base| && !IsWhite(base[0])
    ensures ParseFilename(filename).value.productKey == Trim(base[..u])
  {
    ParseFilenameNone(filename);
  }

  /** The trimmed text before the first underscore of a trimmed name is neither blank
      nor holds an underscore. */
  lemma KeyBeforeUnderscore(base: string, u: int)
    requires 0 < u < |base| && !IsWhite(base[0])
    requires forall j :: 0 <= j < u ==> base[j] != '_'
    ensures Trim(base[..u]) != [] && '_' !in Trim(base[..u])
  {
    PrefixBeforeFirst(base, u, '_');
    TrimNonEmpty(base[..u]);
    TrimKeepsAbsent(base[..u], '_');
  }

  /** A found first occurrence of `c` is `c`, and nothing before it is. */
  lemma BeforeFirst(s: string, u: int, c: char)
    requires u == IndexOf(s, c) && 0 <= u
    ensures s[u] == c && forall j :: 0 <= j < u ==> s[j] != c
  {
  }

  /** The text before the first occurrence of `c` does not hold `c`. */
  lemma PrefixBeforeFirst(s: string, u: int, c: char)
    requires 0 < u < |s| && forall j :: 0 <= j < u ==> s[j] != c
    ensures c !in s[..u] && s[..u] != [] && s[..u][0] == s[0]
  {
  }

  /** The role is never empty and only holds `[a-z0-9]`; it is the lower-cased, filtered
      segment, or `misc` when the filter leaves nothing. */
  lemma NormalizeRoleShape(segment: string)
    ensures var kept := Filter(ToLower(segment), IsLowerAlnum);
      NormalizeRole(segment) == (if kept == [] then "misc" else kept)
    ensures NormalizeRole(segment) != []
    ensures forall i :: 0 <= i < |NormalizeRole(segment)| ==> IsLowerAlnum(NormalizeRole(segment)[i])
    ensures ToLower(segment) in {"model", "model2"} ==> NormalizeRole(segment) == ToLower(segment)
  {
    var lower := ToLower(segment);
    if lower == "model2" || lower == "model" {
      FilterNoop(lower, IsLowerAlnum);
    }
  }

  // ---------------------------------------------------------------------------
  // assignDeterministicPositions: specification

  /** The bucket a file goes into: its parsed role, or `misc` when the name does not parse. */
  function RoleOf(f: RawImageFile): string {
    match ParseFilename(f.filename)
    case Some(p) => p.role
    case None => "misc"
  }

  lemma RoleOfShape(f: RawImageFile)
    ensures RoleOf(f) != [] && forall i :: 0 <= i < |RoleOf(f)| ==> IsLowerAlnum(RoleOf(f)[i])
    ensures ParseFilename(f.filename).None? ==> RoleOf(f) == "misc"
  {
    if ParseFilename(f.filename).Some? {
      ParsedRoleShape(f.filename);
    } else {
      MiscIsLowerAlnum();
    }
  }

  /** A parsed role is a non-empty run of `[a-z0-9]`. */
  lemma ParsedRoleShape(filename: string)
    requires ParseFilename(filename).Some?
    ensures var role := ParseFilename(filename).value.role;
      role != [] && forall i :: 0 <= i < |role| ==> IsLowerAlnum(role[i])
  {
    var segment := ParsedSegment(filename);
    NormalizeRoleShape(segment);
  }

  /** The trimmed role segment a parsed filename's role was normalised from. */
  lemma ParsedSegment(filename: string) returns (segment: string)
    requires ParseFilename(filename).Some?
    ensures ParseFilename(filename).value.role == NormalizeRole(segment)
  {
    var base := Trim(filename);
    var u := IndexOf(base, '_');
    ParseFilenameNone(filename);
    segment := Trim(RoleSegment(base[u + 1..]));
  }

  lemma MiscIsLowerAlnum()
    ensures forall i :: 0 <= i < |"misc"| ==> IsLowerAlnum("misc"[i])
  {
  }

  /** A modification time counts only when present and non-empty. */
  predicate HasTime(f: RawImageFile) {
    f.modifiedTime.Some? && f.modifiedTime.value != ""
  }

  /** The bucket comparator: by modification time when both files have one and they
      differ, otherwise by filename. */
  predicate FileBefore(a: RawImageFile, b: RawImageFile) {
    if HasTime(a) && HasTime(b) && a.modifiedTime.value != b.modifiedTime.value
    then LexLess(a.modifiedTime.value, b.modifiedTime.value)
    else LexLess(a.filename, b.filename)
  }

  /** The roles outside the canonical four, in their given order. */
  function NonCanonical(roles: seq<string>): (r: seq<string>)
    ensures forall x :: x in r <==> x in roles && x !in Constants.ROLE_ORDER
    ensures Distinct(roles) ==> Distinct(r)
  {
    if roles == [] then []
    else
      var rest := NonCanonical(roles[1..]);
      if roles[0] in Constants.ROLE_ORDER then rest else [roles[0]] + rest
  }

  /** The canonical roles, then the other roles of the files in ascending order. */
  function OrderedRoles(files: seq<RawImageFile>): seq<string> {
    Constants.ROLE_ORDER + SortBy(NonCanonical(KeysOf(files, RoleOf)), LexLess)
  }

  /** The files in output order, each with the role it is filed under. */
  function Placed(files: seq<RawImageFile>): seq<(RawImageFile, string)> {
    Arrange(OrderedRoles(files), files, RoleOf, FileBefore)
  }

  /** The positioned asset of a file. */
  function ToAsset(f: RawImageFile, role: string, position: int): ImageAsset {
    ImageAsset(f.driveFileId, f.filename, role, position, OptionalText(f.mimeType), f.sizeBytes, OptionalText(f.modifiedTime))
  }

  /** Placed files numbered from 1. */
  function Number(p: seq<(RawImageFile, string)>): (r: seq<ImageAsset>)
    ensures |r| == |p|
    ensures forall i :: 0 <= i < |p| ==> r[i] == ToAsset(p[i].0, p[i].1, i + 1)
  {
    seq(|p|, i requires 0 <= i < |p| => ToAsset(p[i].0, p[i].1, i + 1))
  }

  lemma NumberSnoc(p: seq<(RawImageFile, string)>, x: (RawImageFile, string))
    ensures Number(p + [x]) == Number(p) + [ToAsset(x.0, x.1, |p| + 1)]
  {
  }

  /** The output of the position assignment. */
  function Assets(files: seq<RawImageFile>): seq<ImageAsset> {
    Number(Placed(files))
  }

  // ---------------------------------------------------------------------------
  // assignDeterministicPositions

  /** `assignDeterministicPositions`: fills an insertion-ordered map from role to files,
      orders the roles, sorts each bucket and numbers the files from 1 in that order. */
  method AssignDeterministicPositions(files: seq<RawImageFile>) returns (output: seq<ImageAsset>)
    ensures output == Assets(files)
    ensures |output| == |files|
    ensures forall i :: 0 <= i < |output| ==> output[i].position == i + 1 && ValidImageAsset(output[i])
  {
    var grouped, keys := GroupBy(files, RoleOf);

    var remaining := NonCanonical(keys);
    var sortedRemaining := SortBy(remaining, LexLess);
    var orderedRoles := Constants.ROLE_ORDER + sortedRemaining;

    forall r | r !in grouped
      ensures Bucket(files, RoleOf, r) == []
    {
    }
    output := EmitRoles(orderedRoles, grouped, files);
    EmittedAssets(files, keys, output);
  }

  /** What the role loop emits for the roles of the files is the position assignment. */
  lemma EmittedAssets(files: seq<RawImageFile>, keys: seq<string>, output: seq<ImageAsset>)
    requires keys == KeysOf(files, RoleOf)
    requires output == Number(Arrange(Constants.ROLE_ORDER + SortBy(NonCanonical(keys), LexLess), files, RoleOf, FileBefore))
    ensures output == Assets(files)
    ensures |output| == |files|
    ensures forall i :: 0 <= i < |output| ==> output[i].position == i + 1 && ValidImageAsset(output[i])
  {
    AssetsShape(files);
  }

  /** The loop over the ordered roles: the sorted bucket of each role that has one, at
      consecutive positions from 1. */
  method EmitRoles(orderedRoles: seq<string>, grouped: map<string, seq<RawImageFile>>, ghost files: seq<RawImageFile>)
    returns (output: seq<ImageAsset>)
    requires forall r :: r in grouped ==> grouped[r] == Bucket(files, RoleOf, r)
    requires forall r :: r !in grouped ==> Bucket(files, RoleOf, r) == []
    ensures output == Number(Arrange(orderedRoles, files, RoleOf, FileBefore))
  {
    output := [];
    var position := 1;
    for k := 0 to |orderedRoles|
      invariant output == Number(Arrange(orderedRoles[..k], files, RoleOf, FileBefore))
      invariant position == |output| + 1
    {
      var role := orderedRoles[k];
      ghost var done := Arrange(orderedRoles[..k], files, RoleOf, FileBefore);
      var bucket: seq<RawImageFile> := [];
      if role in grouped {
        bucket := SortBy(grouped[role], FileBefore);
      }
      assert bucket == SortBy(Bucket(files, RoleOf, role), FileBefore);
      output, position := PushBucket(output, position, done, bucket, role);
      EmitStep(orderedRoles, k, files);
    }
    assert orderedRoles[..|orderedRoles|] == orderedRoles;
  }

  /** One more role appends its sorted, tagged bucket. */
  lemma EmitStep(orderedRoles: seq<string>, k: nat, files: seq<RawImageFile>)
    requires k < |orderedRoles|
    ensures Arrange(orderedRoles[..k + 1], files, RoleOf, FileBefore) ==
      Arrange(orderedRoles[..k], files, RoleOf, FileBefore) + Tag(SortBy(Bucket(files, RoleOf, orderedRoles[k]), FileBefore), orderedRoles[k])
  {
    TakeSnoc(orderedRoles, k);
    ArrangeSnoc(orderedRoles[..k], orderedRoles[k], files, RoleOf, FileBefore);
  }

  /** The inner loop: one asset per file of a sorted bucket, at the next positions. */
  method PushBucket(output: seq<ImageAsset>, position: int, ghost done: seq<(RawImageFile, string)>,
                    bucket: seq<RawImageFile>, role: string)
    returns (output': seq<ImageAsset>, position': int)
    requires output == Number(done) && position == |output| + 1
    ensures output' == Number(done + Tag(bucket, role)) && position' == |output'| + 1
  {
    output', position' := output, position;
    assert done + Tag(bucket[..0], role) == done;
    for j := 0 to |bucket|
      invariant output' == Number(done + Tag(bucket[..j], role))
      invariant position' == |output'| + 1
    {
      assert Tag(bucket[..j + 1], role) == Tag(bucket[..j], role) + [(bucket[j], role)];
      assert done + Tag(bucket[..j + 1], role) == (done + Tag(bucket[..j], role)) + [(bucket[j], role)];
      NumberSnoc(done + Tag(bucket[..j], role), (bucket[j], role));
      output' := output' + [ToAsset(bucket[j], role, position')];
      position' := position' + 1;
    }
    assert bucket[..|bucket|] == bucket;
  }

  // ---------------------------------------------------------------------------
  // Properties of the position assignment

  /** The canonical roles followed by the sorted others are distinct and include all of
      `roles`. */
  lemma CanonicalThenSorted(roles: seq<string>)
    requires Distinct(roles)
    ensures Distinct(Constants.ROLE_ORDER + SortBy(NonCanonical(roles), LexLess))
    ensures forall r :: r in roles ==> r in Constants.ROLE_ORDER + SortBy(NonCanonical(roles), LexLess)
  {
    var nc := NonCanonical(roles);
    var sorted := SortBy(nc, LexLess);
    DistinctPermutation(nc, sorted);
    forall x | x in sorted
      ensures x !in Constants.ROLE_ORDER
    {
      assert x in multiset(nc);
    }
    DistinctAppend(Constants.ROLE_ORDER, sorted);
    forall r | r in roles
      ensures r in Constants.ROLE_ORDER + sorted
    {
      if r !in Constants.ROLE_ORDER {
        assert r in multiset(sorted);
      }
    }
  }

  /** The ordered roles are distinct and include the role of every file. */
  lemma OrderedRolesCover(files: seq<RawImageFile>)
    ensures Distinct(OrderedRoles(files))
    ensures forall i :: 0 <= i < |files| ==> RoleOf(files[i]) in OrderedRoles(files)
  {
    KeysOfMembers(files, RoleOf);
    CanonicalThenSorted(KeysOf(files, RoleOf));
  }

  /** Every file yields exactly one placed entry, filed under its own role. */
  lemma PlacedPermutation(files: seq<RawImageFile>)
    ensures multiset(Firsts(Placed(files))) == multiset(files)
    ensures |Placed(files)| == |files|
    ensures forall i :: 0 <= i < |Placed(files)| ==> Placed(files)[i].1 == RoleOf(Placed(files)[i].0)
  {
    OrderedRolesCover(files);
    ArrangePermutation(OrderedRoles(files), files, RoleOf, FileBefore);
    ArrangeTags(OrderedRoles(files), files, RoleOf, FileBefore);
  }

  /** One asset per file, positions 1..n in output order across all roles, each asset
      carrying its file's fields and role; a file whose name does not parse is filed
      under `misc`. */
  lemma AssetsShape(files: seq<RawImageFile>)
    ensures |Assets(files)| == |files|
    ensures multiset(Firsts(Placed(files))) == multiset(files)
    ensures forall i :: 0 <= i < |Assets(files)| ==>
      Assets(files)[i] == ToAsset(Placed(files)[i].0, RoleOf(Placed(files)[i].0), i + 1) &&
      Assets(files)[i].position == i + 1 && ValidImageAsset(Assets(files)[i])
    ensures forall i :: 0 <= i < |Assets(files)| && ParseFilename(Placed(files)[i].0.filename).None? ==>
      Assets(files)[i].role == "misc"
  {
    PlacedPermutation(files);
  }

  // ---------------------------------------------------------------------------
  // Role order

  /** The role order: the canonical roles in their listed order and before every other
      role; the other roles ascending. */
  predicate RoleBefore(a: string, b: string) {
    if a in Constants.ROLE_ORDER then
      b !in Constants.ROLE_ORDER || IndexIn(Constants.ROLE_ORDER, a) < IndexIn(Constants.ROLE_ORDER, b)
    else b !in Constants.ROLE_ORDER && LexLess(a, b)
  }

  lemma LexLessTotalOn(xs: set<string>)
    ensures StrictTotalOn(LexLess, xs)
  {
    forall x | x in xs
      ensures !LexLess(x, x)
    {
      LexLessIrreflexive(x);
    }
    forall x, y, z | x in xs && y in xs && z in xs && LexLess(x, y) && LexLess(y, z)
      ensures LexLess(x, z)
    {
      LexLessTransitive(x, y, z);
    }
    forall x, y | x in xs && y in xs
      ensures x == y || LexLess(x, y) || LexLess(y, x)
    {
      LexLessTotal(x, y);
    }
  }

  /** In the canonical roles followed by sorted other roles, an earlier role comes first in
      the role order. */
  lemma RanksToRoleBefore(sorted: seq<string>, a: string, b: string)
    requires SortedBy(sorted, LexLess)
    requires forall x :: x in sorted ==> x !in Constants.ROLE_ORDER
    requires a in Constants.ROLE_ORDER + sorted && b in Constants.ROLE_ORDER + sorted
    requires IndexIn(Constants.ROLE_ORDER + sorted, a) <= IndexIn(Constants.ROLE_ORDER + sorted, b)
    ensures a == b || RoleBefore(a, b)
  {
    IndexInAppend(Constants.ROLE_ORDER, sorted, a);
    IndexInAppend(Constants.ROLE_ORDER, sorted, b);
    if a != b && a !in Constants.ROLE_ORDER {
      SortedRanks(sorted, a, b);
    }
  }

  /** Two distinct members of a list sorted by `LexLess`, in list order, are in `LexLess`
      order. */
  lemma SortedRanks(sorted: seq<string>, a: string, b: string)
    requires SortedBy(sorted, LexLess)
    requires a in sorted && b in sorted && a != b
    requires IndexIn(sorted, a) <= IndexIn(sorted, b)
    ensures LexLess(a, b)
  {
    var ia := IndexIn(sorted, a);
    var ib := IndexIn(sorted, b);
    assert !LexLess(sorted[ib], sorted[ia]);
    LexLessTotal(a, b);
  }

  /** Along the output the roles follow the role order: main, close, model, model2, then
      the other roles ascending. */
  lemma AssetsRoleOrder(files: seq<RawImageFile>)
    ensures forall i, j :: 0 <= i < j < |Assets(files)| ==>
      Assets(files)[i].role == Assets(files)[j].role || RoleBefore(Assets(files)[i].role, Assets(files)[j].role)
  {
    var nc := NonCanonical(KeysOf(files, RoleOf));
    var sorted := SortBy(nc, LexLess);
    var p := Placed(files);
    OrderedRolesCover(files);
    ArrangeRanks(OrderedRoles(files), files, RoleOf, FileBefore);
    LexLessTotalOn(Elements(nc));
    SortBySorted(nc, LexLess, Elements(nc));
    forall x | x in sorted
      ensures x !in Constants.ROLE_ORDER
    {
      assert x in multiset(nc);
    }
    forall i, j | 0 <= i < j < |p|
      ensures p[i].1 == p[j].1 || RoleBefore(p[i].1, p[j].1)
    {
      RanksToRoleBefore(sorted, p[i].1, p[j].1);
    }
  }

  /** The assets of one role are contiguous. */
  lemma AssetsContiguous(files: seq<RawImageFile>, i: nat, m: nat, j: nat)
    requires i < m < j < |Assets(files)| && Assets(files)[i].role == Assets(files)[j].role
    ensures Assets(files)[m].role == Assets(files)[i].role
  {
    OrderedRolesCover(files);
    ArrangeContiguous(OrderedRoles(files), files, RoleOf, FileBefore, i, m, j);
  }

  // ---------------------------------------------------------------------------
  // Order within a role

  /** Within each role, no two different files share a filename, and either every file or
      none has a modification time.  Under this condition the bucket comparator is a strict
      total order on each bucket. */
  predicate Orderable(files: seq<RawImageFile>) {
    forall a, b :: a in files && b in files && RoleOf(a) == RoleOf(b) ==>
      (a.filename == b.filename ==> a == b) && HasTime(a) == HasTime(b)
  }

  lemma FileBeforeTransitive(a: RawImageFile, b: RawImageFile, c: RawImageFile)
    requires HasTime(a) == HasTime(b) == HasTime(c)
    requires FileBefore(a, b) && FileBefore(b, c)
    ensures FileBefore(a, c)
  {
    if HasTime(a) {
      var ta, tb, tc := a.modifiedTime.value, b.modifiedTime.value, c.modifiedTime.value;
      if ta != tb && tb != tc {
        LexLessTransitive(ta, tb, tc);
        LexLessIrreflexive(ta);
      } else if ta == tb && tb == tc {
        LexLessTransitive(a.filename, b.filename, c.filename);
      }
    } else {
      LexLessTransitive(a.filename, b.filename, c.filename);
    }
  }

  lemma FileBeforeTotal(a: RawImageFile, b: RawImageFile)
    requires HasTime(a) == HasTime(b)
    ensures a.filename == b.filename || FileBefore(a, b) || FileBefore(b, a)
  {
    if HasTime(a) && a.modifiedTime.value != b.modifiedTime.value {
      LexLessTotal(a.modifiedTime.value, b.modifiedTime.value);
    } else {
      LexLessTotal(a.filename, b.filename);
    }
  }

  /** Under the condition the comparator orders each role's files totally. */
  lemma OrderableTotal(files: seq<RawImageFile>)
    requires Orderable(files)
    ensures TotalWithin(files, RoleOf, FileBefore)
  {
    forall k
      ensures StrictTotalOn(FileBefore, KeySet(files, RoleOf, k))
    {
      var s := KeySet(files, RoleOf, k);
      forall x | x in s
        ensures !FileBefore(x, x)
      {
        LexLessIrreflexive(x.filename);
      }
      forall x, y, z | x in s && y in s && z in s && FileBefore(x, y) && FileBefore(y, z)
        ensures FileBefore(x, z)
      {
        FileBeforeTransitive(x, y, z);
      }
      forall x, y | x in s && y in s
        ensures x == y || FileBefore(x, y) || FileBefore(y, x)
      {
        FileBeforeTotal(x, y);
      }
    }
  }

  /** Within a role the files are ordered by modification time when both have one and they
      differ, and by filename otherwise. */
  lemma PlacedWithinRole(files: seq<RawImageFile>)
    requires Orderable(files)
    ensures forall i, j :: (0 <= i < j < |Placed(files)| && Placed(files)[i].1 == Placed(files)[j].1) ==>
      Placed(files)[i].0 == Placed(files)[j].0 || FileBefore(Placed(files)[i].0, Placed(files)[j].0)
  {
    OrderedRolesCover(files);
    OrderableTotal(files);
    ArrangeSortedWithin(OrderedRoles(files), files, RoleOf, FileBefore);
    assert OrderedWithinKeys(Placed(files), FileBefore);
  }

  // ---------------------------------------------------------------------------
  // Order independence

  /** Rearranging the files does not change the role order. */
  lemma OrderedRolesAgree(files: seq<RawImageFile>, files': seq<RawImageFile>)
    requires multiset(files) == multiset(files')
    ensures OrderedRoles(files) == OrderedRoles(files')
  {
    var a := NonCanonical(KeysOf(files, RoleOf));
    var b := NonCanonical(KeysOf(files', RoleOf));
    KeysOfAgree(files, files', RoleOf);
    DistinctSameElements(a, b);
    LexLessTotalOn(Elements(a));
    SortByOrderIndependent(a, b, LexLess, Elements(a));
  }

  /** When the comparator orders each role's files totally, the output does not depend on
      the input order. */
  lemma AssetsOrderIndependent(files: seq<RawImageFile>, files': seq<RawImageFile>)
    requires multiset(files) == multiset(files')
    requires Orderable(files)
    ensures Assets(files) == Assets(files')
  {
    OrderedRolesAgree(files, files');
    OrderableTotal(files);
    ArrangeOrderIndependent(OrderedRoles(files), files, files', RoleOf, FileBefore);
  }
}
