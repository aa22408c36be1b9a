/**
  The planning of image, mount and artifact paths (src/ext4-filesystem-image-paths.mjs) under
  three disjoint roots. Requests arrive as the contract checks of other files let them through.
 */
module ImagePaths {
  import opened Options
  import opened Bytes
  import opened Strings
  import U = Utf8
  import H = Sha256
  import S = Sha256Stream

  const MAX_PATH_BYTES: nat := 4095

  // Paths

  predicate IsComponent(name: string) {
    name != "" && name != "." && name != ".." && '/' !in name
  }

  predicate Printable(s: string) {
    forall i :: 0 <= i < |s| ==> s[i] >= ' ' && s[i] != '\U{7F}'
  }

  function Components(path: string): seq<string>
    requires path != ""
  {
    Split(path[1..], '/')
  }

  /** `canonicalPath`: absolute, resolved, printable, bounded, and not the root. */
  predicate CanonicalPath(path: string) {
    && |path| > 1
    && path[0] == '/'
    && (forall i :: 0 <= i < |Components(path)| ==> IsComponent(Components(path)[i]))
    && Printable(path)
    && U.ByteLength(path) <= MAX_PATH_BYTES
  }

  /** `pathContains` */
  predicate Contains(parent: string, child: string) {
    child == parent || parent + "/" <= child
  }

  predicate Disjoint(a: string, b: string) {
    !Contains(a, b) && !Contains(b, a)
  }

  /** On paths, the prefix test means what it should: the parent's components come first. */
  lemma ContainsMeansPrefix(parent: string, child: string)
    requires parent != "" && child != "" && parent[0] == '/' && child[0] == '/'
    ensures Contains(parent, child) <==> Components(parent) <= Components(child)
  {
    hide Split, Join;
    var p, c := parent[1..], child[1..];
    JoinSplit(p, '/');
    JoinSplit(c, '/');
    assert parent == "/" + p && child == "/" + c;
    if parent + "/" <= child {
      var rest := child[|parent| + 1..];
      assert c == p + "/" + rest;
      SplitOfSum(p, '/', rest);
    }
    if Components(parent) <= Components(child) {
      var more := Components(child)[|Components(parent)|..];
      assert Components(child) == Components(parent) + more;
      if more == [] {
        assert Components(child) == Components(parent);
      } else {
        JoinOfSum(Components(parent), more, '/');
        assert child == parent + "/" + Join(more, '/');
      }
    }
  }

  lemma ContainsIsTransitive(a: string, b: string, c: string)
    requires Contains(a, b) && Contains(b, c)
    ensures Contains(a, c)
  {
  }

  /** Two trees that share a path lie one in the other. */
  lemma SharedPath(a: string, b: string, c: string)
    requires Contains(a, c) && Contains(b, c)
    ensures Contains(a, b) || Contains(b, a)
  {
    if |a| < |b| {
      assert b[|a|] == c[|a|] && b[..|a|] == c[..|a|] == a;
      assert a + "/" == b[..|a| + 1];
    } else if |b| < |a| {
      assert a[|b|] == c[|b|] && a[..|b|] == c[..|b|] == b;
      assert b + "/" == a[..|b| + 1];
    } else {
      assert a == c[..|a|] == b;
    }
  }

  /** What lies in disjoint trees is disjoint. */
  lemma DisjointTrees(a: string, b: string, x: string, y: string)
    requires Disjoint(a, b) && Contains(a, x) && Contains(b, y)
    ensures Disjoint(x, y)
  {
    if Contains(x, y) {
      ContainsIsTransitive(a, x, y);
      SharedPath(a, b, y);
    }
    if Contains(y, x) {
      ContainsIsTransitive(b, y, x);
      SharedPath(a, b, x);
    }
  }

  /** Two direct children of one directory are the same or disjoint. */
  lemma SiblingsAreDisjoint(parent: string, a: string, b: string)
    requires '/' !in a && '/' !in b
    ensures Contains(parent + "/" + a, parent + "/" + b) <==> a == b
  {
    var x, y := parent + "/" + a, parent + "/" + b;
    assert forall i :: |parent| < i < |y| ==> y[i] == b[i - |parent| - 1] != '/';
    assert (x + "/")[|x|] == '/';
    if x == y {
      assert a == x[|parent| + 1..] && b == y[|parent| + 1..];
    }
  }

  /** `dirname` and `basename` of an absolute path */
  function LastSlash(path: string): (k: nat)
    requires path != "" && path[0] == '/'
    ensures k < |path| && path[k] == '/'
    ensures forall i :: k < i < |path| ==> path[i] != '/'
  {
    if path[|path| - 1] == '/' then |path| - 1 else LastSlash(path[..|path| - 1])
  }

  function Dirname(path: string): string
    requires path != "" && path[0] == '/'
  {
    path[..LastSlash(path)]
  }

  function Basename(path: string): string
    requires path != "" && path[0] == '/'
  {
    path[LastSlash(path) + 1..]
  }

  lemma ParentOfChild(parent: string, name: string)
    requires parent != "" && parent[0] == '/' && '/' !in name
    ensures Dirname(parent + "/" + name) == parent && Basename(parent + "/" + name) == name
  {
    var path := parent + "/" + name;
    var k := LastSlash(path);
    assert path[|parent|] == '/';
    assert forall i :: |parent| < i < |path| ==> path[i] == name[i - |parent| - 1];
    assert k == |parent|;
  }

  /** `directChildPath` for one of this module's own names. */
  function DirectChild(parent: string, name: string): (child: Option<string>)
    requires IsComponent(name)
    ensures child.Some? ==> child.value == parent + "/" + name && CanonicalPath(child.value)
    ensures child.Some? ==> Dirname(child.value) == parent
  {
    var path := parent + "/" + name;
    if !CanonicalPath(path) || Dirname(path) != parent then None else Some(path)
  }

  /** `assertDisjointRoots` */
  method AssertDisjointRoots(roots: seq<string>) returns (ok: bool)
    ensures ok <==> forall i, j :: 0 <= i < j < |roots| ==> Disjoint(roots[i], roots[j])
  {
    var left := 0;
    while left < |roots|
      invariant left <= |roots|
      invariant forall i, j :: 0 <= i < left && i < j < |roots| ==> Disjoint(roots[i], roots[j])
    {
      var right := left + 1;
      while right < |roots|
        invariant left < right <= |roots|
        invariant forall j :: left < j < right ==> Disjoint(roots[left], roots[j])
      {
        if Contains(roots[left], roots[right]) || Contains(roots[right], roots[left]) {
          assert !Disjoint(roots[left], roots[right]);
          return false;
        }
        right := right + 1;
      }
      left := left + 1;
    }
    ok := true;
  }

  // The digest

  const DOMAIN: string := "portable-codex-runtime/ext4-path/v1\0"

  /** A text whose length fits in 32 bits, as that of every text does. */
  type Part = s: string | U.ByteLength(s) < 0x1_0000_0000

  /** A part with its length before it. */
  function Framed(part: Part): seq<byte> {
    S.WordBytes(U.ByteLength(part)) + U.Encode(part)
  }

  function FramedAll(parts: seq<Part>): seq<byte> {
    if parts == [] then [] else Framed(parts[0]) + FramedAll(parts[1..])
  }

  function DigestInput(parts: seq<Part>): seq<byte> {
    U.Encode(DOMAIN) + FramedAll(parts)
  }

  /** `digest`: the loop feeds the hash; what it was fed is `input`. */
  method Digest(parts: seq<Part>) returns (token: string)
    ensures token == Token(parts)
  {
    hide H.MessageDigest, U.Encode;
    var input := U.Encode(DOMAIN);
    var index := 0;
    while index < |parts|
      invariant index <= |parts|
      invariant input + FramedAll(parts[index..]) == DigestInput(parts)
    {
      ghost var before := input;
      input := input + S.WordBytes(U.ByteLength(parts[index]));
      input := input + U.Encode(parts[index]);
      assert parts[index..][1..] == parts[index + 1..];
      assert input + FramedAll(parts[index + 1..]) == before + FramedAll(parts[index..]);
      index := index + 1;
    }
    assert input == DigestInput(parts);
    token := S.Hex(H.MessageDigest(input));
  }

  function Token(parts: seq<Part>): string {
    S.Hex(H.MessageDigest(DigestInput(parts)))
  }

  predicate IsHex(s: string) {
    forall i :: 0 <= i < |s| ==> '0' <= s[i] <= '9' || 'a' <= s[i] <= 'f'
  }

  lemma TokenShape(parts: seq<Part>)
    ensures |Token(parts)| == 64 && IsHex(Token(parts))
  {
    hide H.MessageDigest, DigestInput;
    H.DigestLength(DigestInput(parts));
  }

  /** The length of the first part is the first word. */
  lemma FirstFrame(parts: seq<Part>)
    requires parts != []
    ensures var all, n := FramedAll(parts), U.ByteLength(parts[0]);
            && |all| >= 4 + n
            && all[..4] == S.WordBytes(n)
            && all[4..4 + n] == U.Encode(parts[0])
            && all[4 + n..] == FramedAll(parts[1..])
  {
    hide U.Encode;
    U.LengthOfEncoding(parts[0]);
    S.WordLength(U.ByteLength(parts[0]));
    hide S.WordBytes, U.ByteLength;
  }

  /** Two lists of parts with the same hash input are the same list. */
  lemma {:induction false} FramesAreInjective(a: seq<Part>, b: seq<Part>)
    requires FramedAll(a) == FramedAll(b)
    ensures a == b
    decreases |a|
  {
    if a != [] {
      FirstFrame(a);
    }
    if b != [] {
      FirstFrame(b);
    }
    if a != [] && b != [] {
      hide FramedAll, S.WordBytes, U.Encode, U.ByteLength;
      SameWord(U.ByteLength(a[0]), U.ByteLength(b[0]));
      U.DecodeEncode(a[0]);
      U.DecodeEncode(b[0]);
      FramesAreInjective(a[1..], b[1..]);
      assert a == [a[0]] + a[1..] && b == [b[0]] + b[1..];
    }
  }

  lemma SameWord(x: word, y: word)
    requires S.WordBytes(x) == S.WordBytes(y)
    ensures x == y
  {
    S.BytesDetermineWord(x);
    S.BytesDetermineWord(y);
    hide H.ByteOf, H.WordOf;
    assert forall k :: 0 <= k < 4 ==> S.WordBytes(x)[k] == S.WordBytes(y)[k];
  }

  lemma DigestInputIsInjective(a: seq<Part>, b: seq<Part>)
    requires DigestInput(a) == DigestInput(b)
    ensures a == b
  {
    hide FramedAll, U.Encode;
    var n := |U.Encode(DOMAIN)|;
    assert DigestInput(a)[n..] == FramedAll(a) && DigestInput(b)[n..] == FramedAll(b);
    FramesAreInjective(a, b);
  }

  // Plans

  datatype Config = Config(backendId: Part, archiveRoot: string, imageRoot: string, mountRoot: string)

  ghost predicate ValidConfig(c: Config) {
    && CanonicalPath(c.archiveRoot) && CanonicalPath(c.imageRoot) && CanonicalPath(c.mountRoot)
    && Disjoint(c.archiveRoot, c.imageRoot)
    && Disjoint(c.archiveRoot, c.mountRoot)
    && Disjoint(c.imageRoot, c.mountRoot)
  }

  /** The checks of `createExt4FilesystemImagePaths` */
  method Create(backendId: Part, archiveRoot: string, imageRoot: string, mountRoot: string) returns (c: Option<Config>)
    ensures c.Some? <==> OpaqueId(backendId) && ValidConfig(Config(backendId, archiveRoot, imageRoot, mountRoot))
    ensures c.Some? ==> c.value == Config(backendId, archiveRoot, imageRoot, mountRoot)
  {
    hide CanonicalPath, Disjoint, OpaqueId;
    if !OpaqueId(backendId) { return None; }
    if !CanonicalPath(archiveRoot) || !CanonicalPath(imageRoot) || !CanonicalPath(mountRoot) { return None; }
    var roots := [archiveRoot, imageRoot, mountRoot];
    var ok := AssertDisjointRoots(roots);
    assert ok ==> Disjoint(roots[0], roots[1]) && Disjoint(roots[0], roots[2]) && Disjoint(roots[1], roots[2]);
    c := if ok then Some(Config(backendId, archiveRoot, imageRoot, mountRoot)) else None;
  }

  lemma {:induction false} ShortText(s: string)
    ensures U.ByteLength(s) <= 4 * |s|
  {
    hide U.EncodeChar;
    if s != "" {
      ShortText(s[1..]);
    }
  }

  /** One of this module's own short texts. */
  function Own(s: string): Part
    requires |s| < 128
  {
    ShortText(s);
    s
  }

  /** A name made of hexadecimal digits of a digest. */
  function TokenName(prefix: string, tag: string, ids: seq<Part>, length: nat, suffix: string): (name: string)
    requires '/' !in prefix && '/' !in suffix && |tag| < 128 && 3 <= length <= 64
    ensures IsComponent(name) && |name| == |prefix| + length + |suffix|
    ensures name[..|prefix|] == prefix && IsHex(name[|prefix|..|prefix| + length])
    ensures name[|prefix| + length..] == suffix
  {
    hide Token, IsHex, IsComponent;
    TokenNameShape(prefix, Token([Own(tag)] + ids), length, suffix);
    TokenShape([Own(tag)] + ids);
    prefix + Token([Own(tag)] + ids)[..length] + suffix
  }

  lemma TokenNameShape(prefix: string, token: string, length: nat, suffix: string)
    requires '/' !in prefix && '/' !in suffix && 3 <= length <= 64
    ensures |token| == 64 && IsHex(token) ==>
              var name := prefix + token[..length] + suffix;
              && IsComponent(name)
              && |name| == |prefix| + length + |suffix|
              && name[..|prefix|] == prefix && IsHex(name[|prefix|..|prefix| + length])
              && name[|prefix| + length..] == suffix
  {
    if |token| == 64 && IsHex(token) {
      assert (prefix + token[..length] + suffix)[|prefix|..|prefix| + length] == token[..length];
    }
  }

  function StorageToken(c: Config, storageId: Part): (name: string)
    ensures IsComponent(name)
  {
    hide TokenName;
    TokenName("", "storage", [c.backendId, storageId], 64, "")
  }

  function ImageName(c: Config, storageId: Part): (name: string)
    ensures IsComponent(name)
  {
    hide TokenName;
    TokenName("", "storage", [c.backendId, storageId], 64, ".ext4")
  }

  function DataName(c: Config, storageId: Part): (name: string)
    ensures IsComponent(name)
  {
    hide TokenName;
    TokenName("data-", "data-root", [c.backendId, storageId], 48, "")
  }

  /** `RESTORED_ATTACHMENT_NAME_PATTERN` */
  predicate IsGenerationName(name: string) {
    |name| == 59 && name[..11] == "generation-" && IsHex(name[11..])
  }

  function GenerationName(operationId: Part): (name: string)
    ensures IsComponent(name) && IsGenerationName(name)
  {
    hide TokenName;
    var name := TokenName("generation-", "restore-operation", [operationId], 48, "");
    assert name[11..59] == name[11..];
    name
  }

  function ArtifactName(c: Config, d: Descriptor): (name: string)
    ensures IsComponent(name)
  {
    hide TokenName;
    TokenName("artifact-", "artifact", [c.backendId, d.sessionId, d.storageId, d.artifactId, d.checkpointId], 48, "")
  }

  predicate IsUuid(s: string) {
    && |s| == 36
    && (forall i :: 0 <= i < 36 ==>
          if i in {8, 13, 18, 23} then s[i] == '-' else '0' <= s[i] <= '9' || 'a' <= s[i] <= 'f')
    && '1' <= s[14] <= '8'
    && s[19] in "89ab"
  }

  predicate AllIn(s: string, digits: string) {
    forall i :: 0 <= i < |s| ==> s[i] in digits
  }

  /** Five groups of digits, the third with a version and the fourth with a variant. */
  lemma UuidHasGroups(s: string)
    ensures IsUuid(s) <==>
              && |s| == 36
              && AllIn(s[..8], "0123456789abcdef") && s[8] == '-'
              && AllIn(s[9..13], "0123456789abcdef") && s[13] == '-'
              && AllIn(s[14..18], "0123456789abcdef") && s[18] == '-'
              && AllIn(s[19..23], "0123456789abcdef") && s[23] == '-'
              && AllIn(s[24..], "0123456789abcdef")
              && '1' <= s[14] <= '8'
              && s[19] in "89ab"
  {
    if |s| == 36 {
      AllHex(s[..8]);
      AllHex(s[9..13]);
      AllHex(s[14..18]);
      AllHex(s[19..23]);
      AllHex(s[24..]);
      hide AllIn;
      assert forall i :: 0 <= i < 8 ==> s[i] == s[..8][i];
      assert forall i :: 9 <= i < 13 ==> s[i] == s[9..13][i - 9];
      assert forall i :: 14 <= i < 18 ==> s[i] == s[14..18][i - 14];
      assert forall i :: 19 <= i < 23 ==> s[i] == s[19..23][i - 19];
      assert forall i :: 24 <= i < 36 ==> s[i] == s[24..][i - 24];
    }
  }

  lemma AllHex(s: string)
    ensures AllIn(s, "0123456789abcdef") <==> IsHex(s)
  {
    forall i | 0 <= i < |s|
      ensures s[i] in "0123456789abcdef" <==> '0' <= s[i] <= '9' || 'a' <= s[i] <= 'f'
    {
      HexCharacters(s[i]);
    }
  }

  lemma HexCharacters(c: char)
    ensures c in "0123456789abcdef" <==> '0' <= c <= '9' || 'a' <= c <= 'f'
  {
  }

  datatype Operation = Attach | Restore | Checkpoint | OtherOperation

  datatype Target = AttachmentTarget | CheckpointTarget(artifactId: Part, checkpointId: Part) | OtherTarget

  datatype Request = Request(
    backendId: Part,
    operation: Operation,
    operationId: Part,
    sessionId: Part,
    storageId: Part,
    target: Target)

  datatype Descriptor = Descriptor(
    backendId: Part,
    sessionId: Part,
    storageId: Part,
    artifactId: Part,
    checkpointId: Part)

  datatype Attachment = Attachment(backendId: Part, sessionId: Part, storageId: Part, rootPath: string)

  datatype Provision = Provision(imagePath: string, mountPath: string, storageId: string)

  /** `storageIdForSession` */
  function StorageIdForSession(c: Config, sessionId: Part): Option<Part> {
    if !IsUuid(sessionId) then None
    else Some(Own(TokenName("ext4-storage:", "session", [c.backendId, sessionId], 48, "")))
  }

  /** `planProvision` */
  function PlanProvision(c: Config, backendId: Part, sessionId: Part): Option<Provision> {
    hide TokenName, CanonicalPath, IsHex;
    var storageId := StorageIdForSession(c, sessionId);
    if backendId != c.backendId || storageId.None? then None
    else
      var mount := DirectChild(c.mountRoot, StorageToken(c, storageId.value));
      var image := DirectChild(c.imageRoot, ImageName(c, storageId.value));
      if mount.None? || image.None? then None else Some(Provision(image.value, mount.value, storageId.value))
  }

  datatype Writable = Writable(attachmentRootPath: string, imagePath: string, mountPath: string, storageId: string)

  /** `planWritableAttachment` */
  function PlanWritableAttachment(c: Config, r: Request): Option<Writable> {
    hide TokenName, CanonicalPath, IsHex;
    if r.backendId != c.backendId || r.operation != Attach || !r.target.AttachmentTarget? then None
    else
      var mount := DirectChild(c.mountRoot, StorageToken(c, r.storageId));
      var image := DirectChild(c.imageRoot, ImageName(c, r.storageId));
      if mount.None? || image.None? then None
      else
        var root := DirectChild(mount.value, DataName(c, r.storageId));
        if root.None? then None else Some(Writable(root.value, image.value, mount.value, r.storageId))
  }

  datatype Destination = Destination(destinationDirectory: string, destinationOwnedRoot: string)

  /** `planRestoreDestination` */
  function PlanRestoreDestination(c: Config, r: Request): Option<Destination> {
    hide TokenName, CanonicalPath, IsHex;
    if r.backendId != c.backendId || r.operation != Restore || !r.target.CheckpointTarget? then None
    else
      var owned := DirectChild(c.mountRoot, StorageToken(c, r.storageId));
      if owned.None? then None
      else
        var directory := DirectChild(owned.value, GenerationName(r.operationId));
        if directory.None? then None else Some(Destination(directory.value, owned.value))
  }

  /** `checkpointAndRequest` */
  predicate CheckpointMatches(c: Config, d: Descriptor, r: Request) {
    && d.backendId == c.backendId && r.backendId == c.backendId
    && r.operation == Checkpoint
    && r.sessionId == d.sessionId && r.storageId == d.storageId
    && r.target == CheckpointTarget(d.artifactId, d.checkpointId)
  }

  /** `resolveArtifactPaths`; the owned root is the archive root. */
  function ResolveArtifactDirectory(c: Config, d: Descriptor, r: Request): Option<string> {
    if !CheckpointMatches(c, d, r) then None else DirectChild(c.archiveRoot, ArtifactName(c, d))
  }

  datatype Source = Source(sourceDirectory: string, sourceOwnedRoot: string)

  /** `resolveSourceOwnedRoot` */
  function ResolveSourceOwnedRoot(c: Config, a: Attachment, d: Descriptor, r: Request): Option<Source> {
    hide TokenName, CanonicalPath, IsHex;
    if !CheckpointMatches(c, d, r) then None
    else if a.backendId != c.backendId || a.sessionId != d.sessionId || a.storageId != r.storageId then None
    else
      var owned := DirectChild(c.mountRoot, StorageToken(c, a.storageId));
      if owned.None? then None
      else
        var data := DirectChild(owned.value, DataName(c, a.storageId));
        if data.None? || a.rootPath == "" || a.rootPath[0] != '/' then None
        else if && Dirname(a.rootPath) == owned.value
                && (a.rootPath == data.value || IsGenerationName(Basename(a.rootPath)))
        then Some(Source(a.rootPath, owned.value))
        else None
  }

  // What plans promise

  predicate ProvisionHasImage(c: Config, b: Part, id: Part, path: string) {
    var p := PlanProvision(c, b, id);
    p.Some? && p.value.imagePath == path
  }

  predicate ProvisionHasMount(c: Config, b: Part, id: Part, path: string) {
    var p := PlanProvision(c, b, id);
    p.Some? && p.value.mountPath == path
  }

  predicate AttachmentHasImage(c: Config, r: Request, path: string) {
    var p := PlanWritableAttachment(c, r);
    p.Some? && p.value.imagePath == path
  }

  predicate AttachmentHasMount(c: Config, r: Request, path: string) {
    var p := PlanWritableAttachment(c, r);
    p.Some? && (p.value.mountPath == path || p.value.attachmentRootPath == path)
  }

  predicate RestoreHasMount(c: Config, r: Request, path: string) {
    var p := PlanRestoreDestination(c, r);
    p.Some? && (p.value.destinationOwnedRoot == path || p.value.destinationDirectory == path)
  }

  /** The image trees that some request gets. */
  ghost predicate PlansImage(c: Config, path: string) {
    || (exists b, id :: ProvisionHasImage(c, b, id, path))
    || (exists r :: AttachmentHasImage(c, r, path))
  }

  /** The mount trees that some request gets, and the attachment roots in them. */
  ghost predicate PlansMount(c: Config, path: string) {
    || (exists b, id :: ProvisionHasMount(c, b, id, path))
    || (exists r :: AttachmentHasMount(c, r, path))
    || (exists r :: RestoreHasMount(c, r, path))
  }

  /** The artifact trees that some request gets. */
  ghost predicate PlansArtifact(c: Config, path: string) {
    exists d, r :: ResolveArtifactDirectory(c, d, r) == Some(path)
  }

  lemma ComponentHasNoSlash(name: string)
    requires IsComponent(name)
    ensures '/' !in name
  {
  }

  lemma WritableIsContained(c: Config, r: Request)
    ensures PlanWritableAttachment(c, r).Some? ==>
              var p := PlanWritableAttachment(c, r).value;
              && Contains(c.imageRoot, p.imagePath)
              && Contains(c.mountRoot, p.mountPath)
              && Contains(c.mountRoot, p.attachmentRootPath)
              && p.mountPath == c.mountRoot + "/" + StorageToken(c, r.storageId)
              && p.imagePath == c.imageRoot + "/" + ImageName(c, r.storageId)
              && p.attachmentRootPath == p.mountPath + "/" + DataName(c, r.storageId)
              && p.storageId == r.storageId
  {
    hide CanonicalPath, StorageToken, ImageName, DataName, IsComponent;
    if PlanWritableAttachment(c, r).Some? {
      var p := PlanWritableAttachment(c, r).value;
      ContainsIsTransitive(c.mountRoot, p.mountPath, p.attachmentRootPath);
    }
  }

  lemma RestoreIsContained(c: Config, r: Request)
    ensures PlanRestoreDestination(c, r).Some? ==>
              var p := PlanRestoreDestination(c, r).value;
              && Contains(c.mountRoot, p.destinationOwnedRoot)
              && Contains(c.mountRoot, p.destinationDirectory)
              && p.destinationOwnedRoot == c.mountRoot + "/" + StorageToken(c, r.storageId)
              && p.destinationDirectory == p.destinationOwnedRoot + "/" + GenerationName(r.operationId)
  {
    hide CanonicalPath, StorageToken, GenerationName, IsComponent;
    if PlanRestoreDestination(c, r).Some? {
      var p := PlanRestoreDestination(c, r).value;
      ContainsIsTransitive(c.mountRoot, p.destinationOwnedRoot, p.destinationDirectory);
    }
  }

  lemma ProvisionIsContained(c: Config, b: Part, id: Part)
    ensures PlanProvision(c, b, id).Some? ==>
              && Contains(c.imageRoot, PlanProvision(c, b, id).value.imagePath)
              && Contains(c.mountRoot, PlanProvision(c, b, id).value.mountPath)
  {
    hide CanonicalPath, StorageToken, ImageName, StorageIdForSession, IsComponent;
  }

  lemma ArtifactIsContained(c: Config, d: Descriptor, r: Request)
    ensures ResolveArtifactDirectory(c, d, r).Some? ==>
              Contains(c.archiveRoot, ResolveArtifactDirectory(c, d, r).value)
  {
    hide CanonicalPath, ArtifactName, IsComponent;
  }

  /** Every planned tree lies in the root for its kind. */
  lemma ImagesStayInTheirRoot(c: Config, path: string)
    requires PlansImage(c, path)
    ensures Contains(c.imageRoot, path)
  {
    hide PlanProvision, PlanWritableAttachment, Contains;
    if b, id :| ProvisionHasImage(c, b, id, path) {
      ProvisionIsContained(c, b, id);
    } else {
      var r :| AttachmentHasImage(c, r, path);
      WritableIsContained(c, r);
    }
  }

  lemma MountsStayInTheirRoot(c: Config, path: string)
    requires PlansMount(c, path)
    ensures Contains(c.mountRoot, path)
  {
    hide PlanProvision, PlanWritableAttachment, PlanRestoreDestination, Contains;
    hide StorageToken, ImageName, DataName, GenerationName;
    if b, id :| ProvisionHasMount(c, b, id, path) {
      ProvisionIsContained(c, b, id);
    } else if r :| AttachmentHasMount(c, r, path) {
      WritableIsContained(c, r);
    } else {
      var r :| RestoreHasMount(c, r, path);
      RestoreIsContained(c, r);
    }
  }

  lemma ArtifactsStayInTheirRoot(c: Config, path: string)
    requires PlansArtifact(c, path)
    ensures Contains(c.archiveRoot, path)
  {
    hide ResolveArtifactDirectory, Contains;
    var d, r :| ResolveArtifactDirectory(c, d, r) == Some(path);
    ArtifactIsContained(c, d, r);
  }

  /** Image, mount and artifact trees of any requests never contain one another. */
  lemma PlannedTreesAreDisjoint(c: Config, image: string, mount: string, artifact: string)
    requires ValidConfig(c) && PlansImage(c, image) && PlansMount(c, mount) && PlansArtifact(c, artifact)
    ensures Disjoint(image, mount) && Disjoint(image, artifact) && Disjoint(mount, artifact)
  {
    hide PlansImage, PlansMount, PlansArtifact, CanonicalPath, Contains;
    ImagesStayInTheirRoot(c, image);
    MountsStayInTheirRoot(c, mount);
    ArtifactsStayInTheirRoot(c, artifact);
    DisjointTrees(c.imageRoot, c.mountRoot, image, mount);
    DisjointTrees(c.archiveRoot, c.imageRoot, artifact, image);
    DisjointTrees(c.archiveRoot, c.mountRoot, artifact, mount);
  }

  /** A checkpoint of the storage, with a request for it, of the same session. */
  ghost predicate CapturesFrom(c: Config, a: Attachment, d: Descriptor, r: Request) {
    && CheckpointMatches(c, d, r)
    && a.backendId == c.backendId && a.sessionId == d.sessionId && a.storageId == r.storageId
  }

  /** The root that was planned for an attachment is accepted as a capture source of its storage. */
  lemma AttachedRootIsAccepted(c: Config, attach: Request, a: Attachment, d: Descriptor, r: Request)
    requires c.mountRoot != "" && c.mountRoot[0] == '/'
    requires CapturesFrom(c, a, d, r) && a.storageId == attach.storageId
    requires PlanWritableAttachment(c, attach).Some?
    requires a.rootPath == PlanWritableAttachment(c, attach).value.attachmentRootPath
    ensures ResolveSourceOwnedRoot(c, a, d, r)
         == Some(Source(a.rootPath, PlanWritableAttachment(c, attach).value.mountPath))
  {
    hide CanonicalPath, StorageToken, ImageName, DataName, Dirname, Basename, IsGenerationName;
    WritableIsContained(c, attach);
    ComponentHasNoSlash(DataName(c, attach.storageId));
    ParentOfChild(PlanWritableAttachment(c, attach).value.mountPath, DataName(c, attach.storageId));
  }

  lemma {:induction false} AsciiLength(s: string)
    ensures |s| <= U.ByteLength(s)
    ensures (forall i :: 0 <= i < |s| ==> s[i] < '\U{80}') ==> U.ByteLength(s) == |s|
  {
    if s != "" {
      assert s[0] < '\U{80}' ==> |U.EncodeChar(s[0])| == 1;
      hide U.EncodeChar;
      AsciiLength(s[1..]);
      assert forall i :: 0 <= i < |s[1..]| ==> s[1..][i] == s[i + 1];
    }
  }

  lemma ComponentsOfChild(parent: string, name: string)
    requires parent != "" && '/' !in name
    ensures Components(parent + "/" + name) == Components(parent) + [name]
  {
    hide Split;
    assert (parent + "/" + name)[1..] == parent[1..] + "/" + name;
    SplitOfSum(parent[1..], '/', name);
    FindIs(name, '/', 0, |name|);
    SplitUnfolds(name, '/', |name|);
  }

  /** Where a name fits, a shorter one does. */
  lemma ShorterNameFits(parent: string, a: string, b: string)
    requires parent != "" && IsComponent(a) && IsComponent(b) && Printable(b)
    requires U.ByteLength(b) <= U.ByteLength(a) && CanonicalPath(parent + "/" + a)
    ensures CanonicalPath(parent + "/" + b)
  {
    hide Components, U.ByteLength, IsComponent;
    ComponentHasNoSlash(a);
    ComponentHasNoSlash(b);
    ComponentsOfChild(parent, a);
    ComponentsOfChild(parent, b);
    U.EncodeAppends(parent + "/", a);
    U.EncodeAppends(parent + "/", b);
    var x, y, n := parent + "/" + a, parent + "/" + b, |Components(parent)|;
    assert forall i :: 0 <= i < n ==> Components(x)[i] == Components(parent)[i];
    assert forall i :: 0 <= i < n ==> Components(y)[i] == Components(parent)[i];
    assert forall i :: 0 <= i <= |parent| ==> y[i] == x[i];
    assert forall i :: |parent| < i < |y| ==> y[i] == b[i - |parent| - 1];
  }

  predicate Ascii(s: string) {
    forall i :: 0 <= i < |s| ==> ' ' <= s[i] < '\U{7F}'
  }

  lemma HexInside(name: string, m: nat, n: nat)
    requires m <= n <= |name| && Ascii(name[..m]) && IsHex(name[m..n]) && Ascii(name[n..])
    ensures Ascii(name)
  {
    forall i | 0 <= i < |name|
      ensures ' ' <= name[i] < '\U{7F}'
    {
      if i < m {
        assert name[i] == name[..m][i];
      } else if i < n {
        assert name[i] == name[m..n][i - m];
      } else {
        assert name[i] == name[n..][i - n];
      }
    }
  }

  lemma TokenNameIsAscii(prefix: string, tag: string, ids: seq<Part>, length: nat, suffix: string)
    requires '/' !in prefix && '/' !in suffix && |tag| < 128 && 3 <= length <= 64
    requires Ascii(prefix) && Ascii(suffix)
    ensures Ascii(TokenName(prefix, tag, ids, length, suffix))
    ensures |TokenName(prefix, tag, ids, length, suffix)| == |prefix| + length + |suffix|
  {
    hide Ascii, IsHex, IsComponent, TokenName;
    HexInside(TokenName(prefix, tag, ids, length, suffix), |prefix|, |prefix| + length);
  }

  // The lengths of the names, all of them printable

  lemma StorageTokenIsAscii(c: Config, storageId: Part)
    ensures Ascii(StorageToken(c, storageId)) && |StorageToken(c, storageId)| == 64
  {
    hide TokenName;
    TokenNameIsAscii("", "storage", [c.backendId, storageId], 64, "");
  }

  lemma ImageNameIsAscii(c: Config, storageId: Part)
    ensures Ascii(ImageName(c, storageId)) && |ImageName(c, storageId)| == 69
  {
    hide TokenName;
    TokenNameIsAscii("", "storage", [c.backendId, storageId], 64, ".ext4");
  }

  lemma DataNameIsAscii(c: Config, storageId: Part)
    ensures Ascii(DataName(c, storageId)) && |DataName(c, storageId)| == 53
  {
    hide TokenName;
    TokenNameIsAscii("data-", "data-root", [c.backendId, storageId], 48, "");
  }

  lemma GenerationNameIsAscii(operationId: Part)
    ensures Ascii(GenerationName(operationId)) && |GenerationName(operationId)| == 59
  {
    hide TokenName;
    TokenNameIsAscii("generation-", "restore-operation", [operationId], 48, "");
  }

  lemma ArtifactNameIsAscii(c: Config, d: Descriptor)
    ensures Ascii(ArtifactName(c, d)) && |ArtifactName(c, d)| == 57
  {
    hide TokenName;
    TokenNameIsAscii("artifact-", "artifact", [c.backendId, d.sessionId, d.storageId, d.artifactId, d.checkpointId],
                     48, "");
  }

  lemma DataNameIsShort(c: Config, storageId: Part, operationId: Part)
    ensures Printable(DataName(c, storageId))
    ensures U.ByteLength(DataName(c, storageId)) <= U.ByteLength(GenerationName(operationId))
  {
    DataNameIsAscii(c, storageId);
    hide DataName, GenerationName, U.ByteLength, IsComponent;
    AsciiLength(DataName(c, storageId));
    AsciiLength(GenerationName(operationId));
    assert |GenerationName(operationId)| == 59;
  }

  /** So is the root that was planned for a restore. */
  lemma RestoredRootIsAccepted(c: Config, restore: Request, a: Attachment, d: Descriptor, r: Request)
    requires c.mountRoot != "" && c.mountRoot[0] == '/'
    requires CapturesFrom(c, a, d, r) && a.storageId == restore.storageId
    requires PlanRestoreDestination(c, restore).Some?
    requires a.rootPath == PlanRestoreDestination(c, restore).value.destinationDirectory
    ensures ResolveSourceOwnedRoot(c, a, d, r)
         == Some(Source(a.rootPath, PlanRestoreDestination(c, restore).value.destinationOwnedRoot))
  {
    hide CanonicalPath, StorageToken, GenerationName, DataName, Dirname, Basename, IsComponent, U.ByteLength, Printable;
    var owned := PlanRestoreDestination(c, restore).value.destinationOwnedRoot;
    RestoreIsContained(c, restore);
    DataNameIsShort(c, restore.storageId, restore.operationId);
    ComponentHasNoSlash(GenerationName(restore.operationId));
    ComponentHasNoSlash(DataName(c, restore.storageId));
    ShorterNameFits(owned, GenerationName(restore.operationId), DataName(c, restore.storageId));
    ParentOfChild(owned, GenerationName(restore.operationId));
    ParentOfChild(owned, DataName(c, restore.storageId));
  }

  // Different requests

  lemma {:induction false} HexIsInjective(a: seq<byte>, b: seq<byte>)
    requires S.Hex(a) == S.Hex(b)
    ensures a == b
  {
    assert |S.Hex(a)| == 2 * |a| && |S.Hex(b)| == 2 * |b|;
    forall i | 0 <= i < |a|
      ensures a[i] == b[i]
    {
      assert S.Hex(a)[2 * i] == S.Hex(b)[2 * i] && S.Hex(a)[2 * i + 1] == S.Hex(b)[2 * i + 1];
      SameHexDigit(a[i] / 16, b[i] / 16);
      SameHexDigit(a[i] % 16, b[i] % 16);
    }
  }

  lemma SameHexDigit(m: nat, n: nat)
    requires m < 16 && n < 16 && HexDigit(m) == HexDigit(n)
    ensures m == n
  {
  }

  /** Two different messages with the same SHA-256 digest. */
  ghost predicate Collision(a: seq<byte>, b: seq<byte>) {
    a != b && H.MessageDigest(a) == H.MessageDigest(b)
  }

  /** Two different messages whose digests share the 24 bytes that become 48 digits of a name. */
  ghost predicate PartialCollision(a: seq<byte>, b: seq<byte>) {
    a != b && |H.MessageDigest(a)| == |H.MessageDigest(b)| == 32 && H.MessageDigest(a)[..24] == H.MessageDigest(b)[..24]
  }

  lemma {:induction false} HexOfPrefix(a: seq<byte>, n: nat)
    requires n <= |a|
    ensures S.Hex(a)[..2 * n] == S.Hex(a[..n])
  {
  }

  /** Names with all 64 digits. */
  lemma SameWholeName(prefix: string, tag: string, p: seq<Part>, q: seq<Part>, suffix: string)
    requires '/' !in prefix && '/' !in suffix && |tag| < 128
    requires TokenName(prefix, tag, p, 64, suffix) == TokenName(prefix, tag, q, 64, suffix)
    ensures p == q || Collision(DigestInput([Own(tag)] + p), DigestInput([Own(tag)] + q))
  {
    hide DigestInput, Collision, Own;
    var x, y := [Own(tag)] + p, [Own(tag)] + q;
    TokenShape(x);
    TokenShape(y);
    SameMiddle(prefix, Token(x)[..64], Token(y)[..64], suffix);
    hide Token;
    assert Token(x)[..64] == Token(x) && Token(y)[..64] == Token(y);
    SameToken(x, y);
    SameTail(Own(tag), p, q);
  }

  /** Names with the first 48 digits. */
  lemma SameShortName(prefix: string, tag: string, p: seq<Part>, q: seq<Part>, suffix: string)
    requires '/' !in prefix && '/' !in suffix && |tag| < 128
    requires TokenName(prefix, tag, p, 48, suffix) == TokenName(prefix, tag, q, 48, suffix)
    ensures p == q || PartialCollision(DigestInput([Own(tag)] + p), DigestInput([Own(tag)] + q))
  {
    hide H.MessageDigest, DigestInput, Own;
    var x, y := [Own(tag)] + p, [Own(tag)] + q;
    TokenShape(x);
    TokenShape(y);
    SameMiddle(prefix, Token(x)[..48], Token(y)[..48], suffix);
    hide S.Hex;
    var d, e := H.MessageDigest(DigestInput(x)), H.MessageDigest(DigestInput(y));
    H.DigestLength(DigestInput(x));
    H.DigestLength(DigestInput(y));
    HexOfPrefix(d, 24);
    HexOfPrefix(e, 24);
    HexIsInjective(d[..24], e[..24]);
    if DigestInput(x) == DigestInput(y) {
      DigestInputIsInjective(x, y);
      SameTail(Own(tag), p, q);
    }
  }

  lemma SameMiddle(prefix: string, a: string, b: string, suffix: string)
    requires |a| == |b| && prefix + a + suffix == prefix + b + suffix
    ensures a == b
  {
    var n := |prefix|;
    assert a == (prefix + a + suffix)[n..n + |a|] && b == (prefix + b + suffix)[n..n + |b|];
  }

  lemma SameTail(first: Part, p: seq<Part>, q: seq<Part>)
    ensures [first] + p == [first] + q <==> p == q
  {
    assert ([first] + p)[1..] == p && ([first] + q)[1..] == q;
  }

  lemma SameToken(p: seq<Part>, q: seq<Part>)
    requires Token(p) == Token(q)
    ensures p == q || Collision(DigestInput(p), DigestInput(q))
  {
    hide H.MessageDigest, DigestInput, S.Hex;
    HexIsInjective(H.MessageDigest(DigestInput(p)), H.MessageDigest(DigestInput(q)));
    if DigestInput(p) == DigestInput(q) {
      DigestInputIsInjective(p, q);
    }
  }

  // What is hashed for each name

  function SessionInput(c: Config, sessionId: Part): seq<byte> {
    DigestInput([Own("session")] + [c.backendId, sessionId])
  }

  function StorageInput(c: Config, storageId: Part): seq<byte> {
    DigestInput([Own("storage")] + [c.backendId, storageId])
  }

  function DataInput(c: Config, storageId: Part): seq<byte> {
    DigestInput([Own("data-root")] + [c.backendId, storageId])
  }

  function OperationInput(operationId: Part): seq<byte> {
    DigestInput([Own("restore-operation")] + [operationId])
  }

  function ArtifactInput(c: Config, d: Descriptor): seq<byte> {
    DigestInput([Own("artifact")] + [c.backendId, d.sessionId, d.storageId, d.artifactId, d.checkpointId])
  }

  lemma SameStorageToken(c: Config, x: Part, y: Part)
    requires StorageToken(c, x) == StorageToken(c, y)
    ensures x == y || Collision(StorageInput(c, x), StorageInput(c, y))
  {
    hide TokenName, DigestInput, Collision, Own;
    var p, q: seq<Part> := [c.backendId, x], [c.backendId, y];
    SameWholeName("", "storage", p, q, "");
    assert p[1] == x && q[1] == y;
  }

  lemma SameImageName(c: Config, x: Part, y: Part)
    requires ImageName(c, x) == ImageName(c, y)
    ensures x == y || Collision(StorageInput(c, x), StorageInput(c, y))
  {
    hide TokenName, DigestInput, Collision, Own;
    var p, q: seq<Part> := [c.backendId, x], [c.backendId, y];
    SameWholeName("", "storage", p, q, ".ext4");
    assert p[1] == x && q[1] == y;
  }

  lemma SameDataName(c: Config, x: Part, y: Part)
    requires DataName(c, x) == DataName(c, y)
    ensures x == y || PartialCollision(DataInput(c, x), DataInput(c, y))
  {
    hide TokenName, DigestInput, PartialCollision, Own;
    var p, q: seq<Part> := [c.backendId, x], [c.backendId, y];
    SameShortName("data-", "data-root", p, q, "");
    assert p[1] == x && q[1] == y;
  }

  lemma SameGenerationName(x: Part, y: Part)
    requires GenerationName(x) == GenerationName(y)
    ensures x == y || PartialCollision(OperationInput(x), OperationInput(y))
  {
    hide TokenName, DigestInput, PartialCollision, Own;
    var p, q: seq<Part> := [x], [y];
    SameShortName("generation-", "restore-operation", p, q, "");
    assert p[0] == x && q[0] == y;
  }

  lemma SameArtifactName(c: Config, x: Descriptor, y: Descriptor)
    requires x.backendId == y.backendId && ArtifactName(c, x) == ArtifactName(c, y)
    ensures x == y || PartialCollision(ArtifactInput(c, x), ArtifactInput(c, y))
  {
    hide TokenName, DigestInput, PartialCollision, Own;
    var p: seq<Part> := [c.backendId, x.sessionId, x.storageId, x.artifactId, x.checkpointId];
    var q: seq<Part> := [c.backendId, y.sessionId, y.storageId, y.artifactId, y.checkpointId];
    SameShortName("artifact-", "artifact", p, q, "");
    assert p == q ==> p[1] == q[1] && p[2] == q[2] && p[3] == q[3] && p[4] == q[4];
  }

  /** Sessions with the same storage are the same session, unless SHA-256 collides on 24 bytes. */
  lemma SameStorageMeansSameSession(c: Config, x: Part, y: Part)
    requires StorageIdForSession(c, x).Some? && StorageIdForSession(c, x) == StorageIdForSession(c, y)
    ensures x == y || PartialCollision(SessionInput(c, x), SessionInput(c, y))
  {
    hide TokenName, DigestInput, PartialCollision, IsUuid;
    var p, q: seq<Part> := [c.backendId, x], [c.backendId, y];
    SameShortName("ext4-storage:", "session", p, q, "");
    assert p[1] == x && q[1] == y;
  }

  /** Storages whose mount trees overlap are the same storage, unless SHA-256 collides on their names. */
  lemma OverlapMeansSameStorage(c: Config, first: Request, second: Request)
    requires PlanWritableAttachment(c, first).Some? && PlanWritableAttachment(c, second).Some?
    requires Contains(PlanWritableAttachment(c, first).value.mountPath, PlanWritableAttachment(c, second).value.mountPath)
    ensures || first.storageId == second.storageId
            || Collision(StorageInput(c, first.storageId), StorageInput(c, second.storageId))
  {
    hide PlanWritableAttachment, StorageToken, Collision, StorageInput;
    WritableIsContained(c, first);
    WritableIsContained(c, second);
    MountOverlap(c, first.storageId, second.storageId);
  }

  lemma MountOverlap(c: Config, x: Part, y: Part)
    requires Contains(c.mountRoot + "/" + StorageToken(c, x), c.mountRoot + "/" + StorageToken(c, y))
    ensures x == y || Collision(StorageInput(c, x), StorageInput(c, y))
  {
    hide StorageToken, Collision, StorageInput, Contains;
    ComponentHasNoSlash(StorageToken(c, x));
    ComponentHasNoSlash(StorageToken(c, y));
    SiblingsAreDisjoint(c.mountRoot, StorageToken(c, x), StorageToken(c, y));
    SameStorageToken(c, x, y);
  }

  /** So are storages whose images overlap. */
  lemma OverlapMeansSameImage(c: Config, first: Request, second: Request)
    requires PlanWritableAttachment(c, first).Some? && PlanWritableAttachment(c, second).Some?
    requires Contains(PlanWritableAttachment(c, first).value.imagePath, PlanWritableAttachment(c, second).value.imagePath)
    ensures || first.storageId == second.storageId
            || Collision(StorageInput(c, first.storageId), StorageInput(c, second.storageId))
  {
    hide PlanWritableAttachment, ImageName, Collision, StorageInput;
    WritableIsContained(c, first);
    WritableIsContained(c, second);
    ComponentHasNoSlash(ImageName(c, first.storageId));
    ComponentHasNoSlash(ImageName(c, second.storageId));
    SiblingsAreDisjoint(c.imageRoot, ImageName(c, first.storageId), ImageName(c, second.storageId));
    SameImageName(c, first.storageId, second.storageId);
  }

  /** Checkpoints whose artifact trees overlap are the same, unless SHA-256 collides on 24 bytes. */
  lemma OverlapMeansSameCheckpoint(c: Config, d: Descriptor, r: Request, d': Descriptor, r': Request)
    requires ResolveArtifactDirectory(c, d, r).Some? && ResolveArtifactDirectory(c, d', r').Some?
    requires Contains(ResolveArtifactDirectory(c, d, r).value, ResolveArtifactDirectory(c, d', r').value)
    ensures d == d' || PartialCollision(ArtifactInput(c, d), ArtifactInput(c, d'))
  {
    hide ArtifactName, PartialCollision, ArtifactInput, CanonicalPath, Contains, IsComponent, Dirname;
    ComponentHasNoSlash(ArtifactName(c, d));
    ComponentHasNoSlash(ArtifactName(c, d'));
    SiblingsAreDisjoint(c.archiveRoot, ArtifactName(c, d), ArtifactName(c, d'));
    SameArtifactName(c, d, d');
  }

  /** Grandchildren of one directory that overlap have equal names at both levels. */
  lemma NestedOverlap(root: string, a: string, x: string, b: string, y: string)
    requires '/' !in a && '/' !in x && '/' !in b && '/' !in y
    requires Contains(root + "/" + a + "/" + x, root + "/" + b + "/" + y)
    ensures a == b && x == y
  {
    var p, q := root + "/" + a, root + "/" + b;
    assert Contains(p, p + "/" + x) && Contains(q, q + "/" + y);
    ContainsIsTransitive(p, p + "/" + x, q + "/" + y);
    SharedPath(p, q, q + "/" + y);
    SiblingsAreDisjoint(root, a, b);
    SiblingsAreDisjoint(root, b, a);
    SiblingsAreDisjoint(p, x, y);
  }

  /** Restores whose destinations overlap are of the same storage and the same operation. */
  lemma OverlapMeansSameRestore(c: Config, first: Request, second: Request)
    requires PlanRestoreDestination(c, first).Some? && PlanRestoreDestination(c, second).Some?
    requires Contains(PlanRestoreDestination(c, first).value.destinationDirectory,
                      PlanRestoreDestination(c, second).value.destinationDirectory)
    ensures || first.storageId == second.storageId
            || Collision(StorageInput(c, first.storageId), StorageInput(c, second.storageId))
    ensures || first.operationId == second.operationId
            || PartialCollision(OperationInput(first.operationId), OperationInput(second.operationId))
  {
    hide PlanRestoreDestination, StorageToken, GenerationName, Contains;
    hide Collision, PartialCollision, StorageInput, OperationInput;
    RestoreIsContained(c, first);
    RestoreIsContained(c, second);
    ComponentHasNoSlash(StorageToken(c, first.storageId));
    ComponentHasNoSlash(StorageToken(c, second.storageId));
    ComponentHasNoSlash(GenerationName(first.operationId));
    ComponentHasNoSlash(GenerationName(second.operationId));
    NestedOverlap(c.mountRoot, StorageToken(c, first.storageId), GenerationName(first.operationId),
                  StorageToken(c, second.storageId), GenerationName(second.operationId));
    SameStorageToken(c, first.storageId, second.storageId);
    SameGenerationName(first.operationId, second.operationId);
  }

  /** Attachments whose roots overlap are of the same storage; to differ, two names have to collide. */
  lemma OverlapMeansSameRoot(c: Config, first: Request, second: Request)
    requires PlanWritableAttachment(c, first).Some? && PlanWritableAttachment(c, second).Some?
    requires Contains(PlanWritableAttachment(c, first).value.attachmentRootPath,
                      PlanWritableAttachment(c, second).value.attachmentRootPath)
    ensures || first.storageId == second.storageId
            || (&& Collision(StorageInput(c, first.storageId), StorageInput(c, second.storageId))
                && PartialCollision(DataInput(c, first.storageId), DataInput(c, second.storageId)))
  {
    hide PlanWritableAttachment, StorageToken, DataName, Collision, PartialCollision, StorageInput, DataInput;
    hide Contains;
    WritableIsContained(c, first);
    WritableIsContained(c, second);
    ComponentHasNoSlash(StorageToken(c, first.storageId));
    ComponentHasNoSlash(StorageToken(c, second.storageId));
    ComponentHasNoSlash(DataName(c, first.storageId));
    ComponentHasNoSlash(DataName(c, second.storageId));
    NestedOverlap(c.mountRoot, StorageToken(c, first.storageId), DataName(c, first.storageId),
                  StorageToken(c, second.storageId), DataName(c, second.storageId));
    SameStorageToken(c, first.storageId, second.storageId);
    SameDataName(c, first.storageId, second.storageId);
  }

  /** What is provisioned for a storage is what is attached to and restored into. */
  lemma PlansAgree(c: Config, b: Part, id: Part, attach: Request, restore: Request)
    requires PlanProvision(c, b, id).Some?
    ensures PlanWritableAttachment(c, attach).Some? && attach.storageId == PlanProvision(c, b, id).value.storageId ==>
              && PlanWritableAttachment(c, attach).value.imagePath == PlanProvision(c, b, id).value.imagePath
              && PlanWritableAttachment(c, attach).value.mountPath == PlanProvision(c, b, id).value.mountPath
              && PlanWritableAttachment(c, attach).value.storageId == PlanProvision(c, b, id).value.storageId
    ensures PlanRestoreDestination(c, restore).Some? && restore.storageId == PlanProvision(c, b, id).value.storageId ==>
              PlanRestoreDestination(c, restore).value.destinationOwnedRoot == PlanProvision(c, b, id).value.mountPath
    ensures Some(PlanProvision(c, b, id).value.storageId) == StorageIdForSession(c, id)
  {
    hide CanonicalPath, StorageToken, ImageName, DataName, GenerationName, StorageIdForSession, IsComponent, Dirname;
    var p := PlanProvision(c, b, id).value;
    assert p.mountPath == c.mountRoot + "/" + StorageToken(c, p.storageId);
    assert p.imagePath == c.imageRoot + "/" + ImageName(c, p.storageId);
    WritableIsContained(c, attach);
    RestoreIsContained(c, restore);
  }

  // When there is a plan

  lemma ChildLength(parent: string, name: string)
    requires Ascii(name)
    ensures U.ByteLength(parent + "/" + name) == U.ByteLength(parent) + 1 + |name|
  {
    hide U.ByteLength, U.Encode;
    U.EncodeAppends(parent, "/");
    U.EncodeAppends(parent + "/", name);
    AsciiLength("/");
    AsciiLength(name);
  }

  lemma ChildIsCanonical(parent: string, name: string)
    requires CanonicalPath(parent) && IsComponent(name) && Ascii(name)
    ensures CanonicalPath(parent + "/" + name) <==> U.ByteLength(parent + "/" + name) <= 4095
  {
    hide U.ByteLength, Components, IsComponent;
    var path := parent + "/" + name;
    ComponentHasNoSlash(name);
    ComponentsOfChild(parent, name);
    assert path[0] == '/';
    assert Printable(path);
  }

  /** Under a canonical directory a printable name fits exactly if the limit on paths allows it. */
  lemma ChildFits(parent: string, name: string)
    requires CanonicalPath(parent) && IsComponent(name) && Ascii(name)
    ensures DirectChild(parent, name).Some? <==> U.ByteLength(parent) + 1 + |name| <= 4095
    ensures DirectChild(parent, name).Some? ==>
              U.ByteLength(DirectChild(parent, name).value) == U.ByteLength(parent) + 1 + |name|
  {
    assert parent != "" && parent[0] == '/';
    hide U.ByteLength, CanonicalPath, IsComponent, Dirname, Basename, Ascii;
    ComponentHasNoSlash(name);
    ParentOfChild(parent, name);
    ChildLength(parent, name);
    ChildIsCanonical(parent, name);
  }

  /** An attachment is planned exactly for an attach request of this backend, if the paths fit. */
  lemma WritableIsPlannedIff(c: Config, r: Request)
    requires ValidConfig(c)
    ensures PlanWritableAttachment(c, r).Some? <==>
              && r.backendId == c.backendId && r.operation == Attach && r.target.AttachmentTarget?
              && U.ByteLength(c.mountRoot) <= 3976 && U.ByteLength(c.imageRoot) <= 4025
  {
    hide CanonicalPath, Disjoint, Dirname, DirectChild, IsComponent, Ascii, U.ByteLength;
    hide StorageToken, ImageName, DataName;
    StorageTokenIsAscii(c, r.storageId);
    ImageNameIsAscii(c, r.storageId);
    DataNameIsAscii(c, r.storageId);
    ChildFits(c.mountRoot, StorageToken(c, r.storageId));
    ChildFits(c.imageRoot, ImageName(c, r.storageId));
    var mount := DirectChild(c.mountRoot, StorageToken(c, r.storageId));
    if mount.Some? {
      ChildFits(mount.value, DataName(c, r.storageId));
    }
  }

  lemma RestoreIsPlannedIff(c: Config, r: Request)
    requires ValidConfig(c)
    ensures PlanRestoreDestination(c, r).Some? <==>
              && r.backendId == c.backendId && r.operation == Restore && r.target.CheckpointTarget?
              && U.ByteLength(c.mountRoot) <= 3970
  {
    hide CanonicalPath, Disjoint, Dirname, DirectChild, IsComponent, Ascii, U.ByteLength;
    hide StorageToken, GenerationName;
    StorageTokenIsAscii(c, r.storageId);
    GenerationNameIsAscii(r.operationId);
    ChildFits(c.mountRoot, StorageToken(c, r.storageId));
    var owned := DirectChild(c.mountRoot, StorageToken(c, r.storageId));
    if owned.Some? {
      ChildFits(owned.value, GenerationName(r.operationId));
    }
  }

  lemma StorageIffUuid(c: Config, id: Part)
    ensures StorageIdForSession(c, id).Some? <==> IsUuid(id)
  {
    hide TokenName, IsUuid;
  }

  lemma ProvisionIsPlannedIff(c: Config, b: Part, id: Part)
    requires ValidConfig(c)
    ensures PlanProvision(c, b, id).Some? <==>
              b == c.backendId && IsUuid(id) && U.ByteLength(c.mountRoot) <= 4030 && U.ByteLength(c.imageRoot) <= 4025
  {
    StorageIffUuid(c, id);
    hide CanonicalPath, Disjoint, Dirname, DirectChild, IsComponent, Ascii, U.ByteLength;
    hide StorageToken, ImageName, IsUuid, StorageIdForSession;
    var storageId := StorageIdForSession(c, id);
    if storageId.Some? {
      StorageTokenIsAscii(c, storageId.value);
      ImageNameIsAscii(c, storageId.value);
      ChildFits(c.mountRoot, StorageToken(c, storageId.value));
      ChildFits(c.imageRoot, ImageName(c, storageId.value));
    }
  }

  lemma ArtifactIsPlannedIff(c: Config, d: Descriptor, r: Request)
    requires ValidConfig(c)
    ensures ResolveArtifactDirectory(c, d, r).Some? <==>
              CheckpointMatches(c, d, r) && U.ByteLength(c.archiveRoot) <= 4037
  {
    hide CanonicalPath, Disjoint, Dirname, DirectChild, IsComponent, Ascii, U.ByteLength;
    hide ArtifactName, CheckpointMatches;
    ArtifactNameIsAscii(c, d);
    ChildFits(c.archiveRoot, ArtifactName(c, d));
  }
}
