/** Generating a batch of vouchers (internal/radius/voucher_service.go). */
module Vouchers {
  import opened Domain
  import Decimal

  datatype CodeFormat = Custom | RandomFormat
  datatype PasswordMode = SameAsUser | RandomPassword | CustomPassword

  datatype BatchRequest = BatchRequest(
    count: int, codeFormat: CodeFormat, customCode: string, passwordMode: PasswordMode, customPassword: string)

  /** The columns of a voucher's row that come from its package and its code. */
  datatype VoucherRow = VoucherRow(
    username: string, password: string, fullName: string, enabled: bool, simultaneousUse: int,
    upKbps: int, downKbps: int, packageId: string, limitType: LimitType, limitSeconds: int,
    dataCap: int, maxTotalOctets: uint32)

  datatype GeneratedVoucher = GeneratedVoucher(row: VoucherRow, password: string)

  /** Random codes and passwords by position, which passwords can be hashed, which inserts
      reach the database, and of which the answer is lost on the way back. */
  datatype Env = Env(
    code: nat -> string,
    password: nat -> string,
    hashable: string -> bool,
    reached: nat -> bool,
    lost: nat -> bool)

  function Count(req: BatchRequest): nat { if req.count <= 0 then 1 else req.count }

  function CodeOf(req: BatchRequest, i: nat, env: Env): string {
    if req.codeFormat != Custom then env.code(i)
    else if req.count > 1 && req.customCode != "" then req.customCode + "-" + Decimal.Print(i + 1)
    else req.customCode
  }

  function PasswordOf(req: BatchRequest, i: nat, env: Env): string {
    match req.passwordMode
    case SameAsUser => CodeOf(req, i, env)
    case RandomPassword => env.password(i)
    case CustomPassword => req.customPassword
  }

  /** The 32-bit octet limit sent to routers: the cap when 32 bits hold it, or none. */
  function OctetLimit(cap: int): uint32 { if 0 < cap < TWO_32 then cap else 0 }

  function RowFor(pkg: Package, req: BatchRequest, i: nat, env: Env): VoucherRow {
    VoucherRow(CodeOf(req, i, env), PasswordOf(req, i, env), "Voucher: " + pkg.name, true,
               if pkg.maxConcurrentUsers < 0 then 0 else pkg.maxConcurrentUsers,
               pkg.upKbps, pkg.downKbps, pkg.id, pkg.limitType, pkg.limitSeconds, pkg.dataCap, OctetLimit(pkg.dataCap))
  }

  /** The voucher has the rates, limits and number of users of its package. */
  predicate FollowsPackage(row: VoucherRow, pkg: Package) {
    && row.packageId == pkg.id && row.enabled && row.fullName == "Voucher: " + pkg.name
    && row.upKbps == pkg.upKbps && row.downKbps == pkg.downKbps
    && row.limitType == pkg.limitType && row.limitSeconds == pkg.limitSeconds && row.dataCap == pkg.dataCap
    && row.simultaneousUse >= 0 && (pkg.maxConcurrentUsers >= 0 ==> row.simultaneousUse == pkg.maxConcurrentUsers)
    && (pkg.maxConcurrentUsers < 0 ==> row.simultaneousUse == 0)
    && row.maxTotalOctets == (if 0 < pkg.dataCap <= 0xFFFF_FFFF then pkg.dataCap else 0)
  }

  /** Its name and password are what the request asked for: a random code, or the custom one,
      numbered from 1 in a batch; the code as the password, a random one, or the custom one. */
  predicate FollowsRequest(v: GeneratedVoucher, req: BatchRequest, index: nat, env: Env) {
    && v.password == v.row.password
    && (req.codeFormat == RandomFormat ==> v.row.username == env.code(index))
    && (req.codeFormat == Custom && (req.count <= 1 || req.customCode == "") ==> v.row.username == req.customCode)
    && (req.codeFormat == Custom && req.count > 1 && req.customCode != "" ==>
          v.row.username == req.customCode + "-" + Decimal.Print(index + 1))
    && (req.passwordMode == SameAsUser ==> v.password == v.row.username)
    && (req.passwordMode == RandomPassword ==> v.password == env.password(index))
    && (req.passwordMode == CustomPassword ==> v.password == req.customPassword)
  }

  predicate HasName(rows: seq<VoucherRow>, username: string) { exists j :: 0 <= j < |rows| && rows[j].username == username }

  /** The insert is accepted: user names are unique, and `max_total_octets` is an INTEGER. */
  predicate AcceptsRow(rows: seq<VoucherRow>, row: VoucherRow) {
    !HasName(rows, row.username) && row.maxTotalOctets <= INT32_MAX
  }

  /** The rows of the first `n` vouchers of a batch. */
  function Batch(pkg: Package, req: BatchRequest, n: nat, env: Env): (rows: seq<VoucherRow>)
    ensures |rows| == n && forall i :: 0 <= i < n ==> rows[i] == RowFor(pkg, req, i, env)
  {
    if n == 0 then [] else Batch(pkg, req, n - 1, env) + [RowFor(pkg, req, n - 1, env)]
  }

  /** Voucher `i` is inserted when its turn comes. */
  predicate Inserts(before: seq<VoucherRow>, pkg: Package, req: BatchRequest, i: nat, env: Env) {
    && env.hashable(PasswordOf(req, i, env)) && env.reached(i)
    && AcceptsRow(before + Batch(pkg, req, i, env), RowFor(pkg, req, i, env))
  }

  /** And the service learns of it. */
  predicate CanCreate(before: seq<VoucherRow>, pkg: Package, req: BatchRequest, i: nat, env: Env) {
    Inserts(before, pkg, req, i, env) && !env.lost(i)
  }

  /** What a call did: it created the first vouchers of the batch, in order, up to the first
      one that fails, and returned exactly these; the one that failed may have been inserted
      all the same. */
  ghost predicate Generated(before: seq<VoucherRow>, after: seq<VoucherRow>, pkg: Package, req: BatchRequest, env: Env,
                            results: seq<GeneratedVoucher>, ok: bool)
  {
    && |results| <= Count(req)
    && after == before + Batch(pkg, req, |results| + Unreturned(before, pkg, req, env, results, ok), env)
    && (forall i :: 0 <= i < |results| ==> results[i] == GeneratedVoucher(RowFor(pkg, req, i, env), PasswordOf(req, i, env)))
    && (forall i :: 0 <= i < |results| ==> CanCreate(before, pkg, req, i, env))
    && (ok <==> |results| == Count(req))
    && (!ok ==> !CanCreate(before, pkg, req, |results|, env))
  }

  function Unreturned(before: seq<VoucherRow>, pkg: Package, req: BatchRequest, env: Env,
                      results: seq<GeneratedVoucher>, ok: bool): nat
  {
    if !ok && Inserts(before, pkg, req, |results|, env) then 1 else 0
  }

  /** So far every voucher was created and returned. */
  ghost predicate Produced(before: seq<VoucherRow>, after: seq<VoucherRow>, pkg: Package, req: BatchRequest, env: Env,
                           results: seq<GeneratedVoucher>)
  {
    && |results| <= Count(req) && after == before + Batch(pkg, req, |results|, env)
    && (forall i :: 0 <= i < |results| ==> results[i] == GeneratedVoucher(RowFor(pkg, req, i, env), PasswordOf(req, i, env)))
    && (forall i :: 0 <= i < |results| ==> CanCreate(before, pkg, req, i, env))
  }

  lemma OneMoreProduced(before: seq<VoucherRow>, after: seq<VoucherRow>, pkg: Package, req: BatchRequest, env: Env,
                        results: seq<GeneratedVoucher>, v: GeneratedVoucher)
    requires Produced(before, after, pkg, req, env, results) && |results| < Count(req)
    requires CanCreate(before, pkg, req, |results|, env)
    requires v == GeneratedVoucher(RowFor(pkg, req, |results|, env), PasswordOf(req, |results|, env))
    ensures Produced(before, after + [RowFor(pkg, req, |results|, env)], pkg, req, env, results + [v])
  {
  }

  lemma StoppedThere(before: seq<VoucherRow>, was: seq<VoucherRow>, after: seq<VoucherRow>, pkg: Package, req: BatchRequest,
                     env: Env, results: seq<GeneratedVoucher>)
    requires Produced(before, was, pkg, req, env, results) && |results| < Count(req)
    requires !CanCreate(before, pkg, req, |results|, env)
    requires after == was + if Inserts(before, pkg, req, |results|, env) then [RowFor(pkg, req, |results|, env)] else []
    ensures Generated(before, after, pkg, req, env, results, false)
  {
  }

  class VoucherService {
    var rows: seq<VoucherRow>

    method GenerateVouchers(found: Option<Package>, req: BatchRequest, env: Env)
      returns (results: seq<GeneratedVoucher>, ok: bool)
      modifies this
      ensures found.None? || !found.value.enabled ==> results == [] && !ok && rows == old(rows)
      ensures found.Some? && found.value.enabled ==> Generated(old(rows), rows, found.value, req, env, results, ok)
    {
      results := [];
      if found.None? || !found.value.enabled {
        return results, false;
      }
      var pkg := found.value;
      var count := req.count;
      if count <= 0 {
        count := 1;
      }
      ghost var before := rows;
      for i := 0 to count
        invariant |results| == i && Produced(before, rows, pkg, req, env, results)
      {
        ghost var was := rows;
        var created := GenerateOneVoucher(pkg, req, i, env);
        if created.None? {
          StoppedThere(before, was, rows, pkg, req, env, results);
          return results, false;
        }
        OneMoreProduced(before, was, pkg, req, env, results, created.value);
        results := results + [created.value];
      }
      ok := true;
    }

    method GenerateOneVoucher(pkg: Package, req: BatchRequest, index: nat, env: Env) returns (created: Option<GeneratedVoucher>)
      modifies this
      ensures var row, password := RowFor(pkg, req, index, env), PasswordOf(req, index, env);
              var inserted := env.hashable(password) && env.reached(index) && AcceptsRow(old(rows), row);
              && (created.Some? <==> inserted && !env.lost(index))
              && (created.Some? ==> created.value == GeneratedVoucher(row, password))
              && rows == if inserted then old(rows) + [row] else old(rows)
    {
      var code := req.customCode;
      if req.codeFormat != Custom {
        code := env.code(index);
      } else if req.count > 1 && req.customCode != "" {
        code := req.customCode + "-" + Decimal.Print(index + 1);
      }
      var password := code;
      match req.passwordMode {
        case RandomPassword => password := env.password(index);
        case CustomPassword => password := req.customPassword;
        case SameAsUser =>
      }
      if !env.hashable(password) {
        return None;
      }
      var simUse := pkg.maxConcurrentUsers;
      if simUse < 0 {
        simUse := 0;
      }
      var maxTotalOctets: uint32 := 0;
      if pkg.dataCap > 0 && pkg.dataCap <= 4294967295 {
        maxTotalOctets := pkg.dataCap;
      }
      var user := VoucherRow(code, password, "Voucher: " + pkg.name, true, simUse, pkg.upKbps, pkg.downKbps,
                             pkg.id, pkg.limitType, pkg.limitSeconds, pkg.dataCap, maxTotalOctets);
      var ok := CreateUser(user, index, env);
      if !ok {
        return None;
      }
      created := Some(GeneratedVoucher(user, password));
    }

    method CreateUser(user: VoucherRow, index: nat, env: Env) returns (ok: bool)
      modifies this
      ensures ok <==> env.reached(index) && AcceptsRow(old(rows), user) && !env.lost(index)
      ensures rows == if env.reached(index) && AcceptsRow(old(rows), user) then old(rows) + [user] else old(rows)
    {
      ok := env.reached(index) && AcceptsRow(rows, user);
      if ok {
        rows := rows + [user];
      }
      ok := ok && !env.lost(index);
    }
  }

  /** Every voucher returned has the rates and limits of the package, and the name and
      password that were asked for, by its place in the batch. */
  lemma VouchersFollowPackage(before: seq<VoucherRow>, after: seq<VoucherRow>, pkg: Package, req: BatchRequest, env: Env,
                              results: seq<GeneratedVoucher>, ok: bool, i: nat)
    requires Generated(before, after, pkg, req, env, results, ok) && i < |results|
    ensures FollowsPackage(results[i].row, pkg) && FollowsRequest(results[i], req, i, env)
    ensures ok ==> |results| == if req.count <= 0 then 1 else req.count
  {
  }

  /** Exactly when the vouchers returned are the rows inserted: the call succeeded, or the
      insert it failed at did not happen. A lost answer leaves one row that nobody is told
      the password of. */
  lemma ReturnedAreInsertedIff(before: seq<VoucherRow>, after: seq<VoucherRow>, pkg: Package, req: BatchRequest, env: Env,
                               results: seq<GeneratedVoucher>, ok: bool)
    requires Generated(before, after, pkg, req, env, results, ok)
    ensures after[|before|..] == seq(|results|, i requires 0 <= i < |results| => results[i].row)
       <==> ok || !Inserts(before, pkg, req, |results|, env)
    ensures |after| <= |before| + |results| + 1
  {
    var n := |results| + Unreturned(before, pkg, req, env, results, ok);
    assert after[|before|..] == Batch(pkg, req, n, env);
    assert |seq(|results|, i requires 0 <= i < |results| => results[i].row)| == |results|;
  }

  // ----- codes -----

  /** With a custom code and more than one voucher, no two codes of a batch are equal. */
  lemma CustomCodesAreDistinct(req: BatchRequest, i: nat, j: nat, env: Env)
    requires req.codeFormat == Custom && req.count > 1 && req.customCode != ""
    requires CodeOf(req, i, env) == CodeOf(req, j, env)
    ensures i == j
  {
    var prefix := req.customCode + "-";
    assert CodeOf(req, i, env)[|prefix|..] == Decimal.Print(i + 1);
    assert CodeOf(req, j, env)[|prefix|..] == Decimal.Print(j + 1);
    Decimal.PrintIsInjective(i + 1, j + 1);
  }

  /** Whoever the codes come from, no two returned vouchers share a user name. */
  lemma ReturnedNamesAreDistinct(before: seq<VoucherRow>, after: seq<VoucherRow>, pkg: Package, req: BatchRequest, env: Env,
                                 results: seq<GeneratedVoucher>, ok: bool, i: nat, j: nat)
    requires Generated(before, after, pkg, req, env, results, ok) && i < j < |results|
    ensures results[i].row.username != results[j].row.username
  {
    var rows := before + Batch(pkg, req, j, env);
    assert CanCreate(before, pkg, req, j, env);
    assert rows[|before| + i] == RowFor(pkg, req, i, env);
  }

  /** Nothing but the batch itself could be in the way. */
  predicate Unhindered(before: seq<VoucherRow>, req: BatchRequest, env: Env) {
    && (forall i :: 0 <= i < Count(req) ==> env.reached(i) && !env.lost(i) && env.hashable(PasswordOf(req, i, env)))
    && (forall i :: 0 <= i < Count(req) ==> !HasName(before, CodeOf(req, i, env)))
  }

  /** The octet column can take the package's cap: it is none, fits 31 bits, or is beyond
      32 bits and so not sent at all. */
  predicate CapIsStorable(cap: int) { cap <= INT32_MAX || cap >= TWO_32 }

  predicate DistinctCodes(req: BatchRequest, env: Env) {
    forall i, j :: 0 <= i < j < Count(req) ==> CodeOf(req, i, env) != CodeOf(req, j, env)
  }

  /** Exactly when an unhindered batch is generated in full: its codes are all different and
      the cap of its package can be stored. */
  lemma BatchIsCompleteIff(before: seq<VoucherRow>, after: seq<VoucherRow>, pkg: Package, req: BatchRequest, env: Env,
                           results: seq<GeneratedVoucher>, ok: bool)
    requires Generated(before, after, pkg, req, env, results, ok) && Unhindered(before, req, env)
    ensures ok <==> DistinctCodes(req, env) && CapIsStorable(pkg.dataCap)
  {
    if ok {
      forall i, j | 0 <= i < j < Count(req) ensures CodeOf(req, i, env) != CodeOf(req, j, env) {
        ReturnedNamesAreDistinct(before, after, pkg, req, env, results, ok, i, j);
      }
      assert CanCreate(before, pkg, req, 0, env);
    } else if DistinctCodes(req, env) && CapIsStorable(pkg.dataCap) {
      NextCanBeCreated(before, pkg, req, |results|, env);
    }
  }

  /** A batch of custom codes, then, stands or falls with the cap: one between 2 and 4 GiB
      makes the very first insert fail. */
  lemma CustomBatchIsCompleteIff(before: seq<VoucherRow>, after: seq<VoucherRow>, pkg: Package, req: BatchRequest, env: Env,
                                 results: seq<GeneratedVoucher>, ok: bool)
    requires Generated(before, after, pkg, req, env, results, ok) && Unhindered(before, req, env)
    requires req.codeFormat == Custom && req.count > 1 && req.customCode != ""
    ensures ok <==> CapIsStorable(pkg.dataCap)
    ensures !ok ==> results == [] && after == before
  {
    forall i, j | 0 <= i < j < Count(req) ensures CodeOf(req, i, env) != CodeOf(req, j, env) {
      if CodeOf(req, i, env) == CodeOf(req, j, env) {
        CustomCodesAreDistinct(req, i, j, env);
      }
    }
    BatchIsCompleteIff(before, after, pkg, req, env, results, ok);
    if !CapIsStorable(pkg.dataCap) {
      CapBlocks(before, pkg, req, env);
    }
  }

  lemma CapBlocks(before: seq<VoucherRow>, pkg: Package, req: BatchRequest, env: Env)
    requires !CapIsStorable(pkg.dataCap)
    ensures !CanCreate(before, pkg, req, 0, env)
  {
  }

  lemma NextCanBeCreated(before: seq<VoucherRow>, pkg: Package, req: BatchRequest, n: nat, env: Env)
    requires n < Count(req) && Unhindered(before, req, env) && DistinctCodes(req, env) && CapIsStorable(pkg.dataCap)
    ensures CanCreate(before, pkg, req, n, env)
  {
  }

  /** Without a suffix all codes are the same, so at most one voucher is created. */
  lemma EmptyCustomCodeMakesOne(before: seq<VoucherRow>, after: seq<VoucherRow>, pkg: Package, req: BatchRequest, env: Env,
                                results: seq<GeneratedVoucher>, ok: bool)
    requires Generated(before, after, pkg, req, env, results, ok) && req.codeFormat == Custom && req.customCode == ""
    ensures |results| <= 1
    ensures req.count > 1 ==> !ok
  {
    if |results| > 1 {
      ReturnedNamesAreDistinct(before, after, pkg, req, env, results, ok, 0, 1);
    }
  }
}
