/** The strings that signatures are computed over: audit rows in app/services/audit_service.py and
    service-to-service requests in app/core/s2s.py. What the string determines, the signature protects. */
module CanonicalStrings {
  import opened Options
  import Delimited

  // ---- Audit rows ----

  /** A row of the audit log; `createdAt` is the time in ISO format. */
  datatype AuditRow = AuditRow(id: string, user: string, action: string, resource: Option<string>,
                               detail: Option<string>, ip: Option<string>, createdAt: string)

  function OrEmpty(v: Option<string>): string {
    if v.Some? then v.value else ""
  }

  /** The fields with NULL and the empty string taken as one. */
  function Fields(r: AuditRow): (fs: seq<string>)
    ensures |fs| == 7
  {
    [r.id, r.user, r.action, OrEmpty(r.resource), OrEmpty(r.detail), OrEmpty(r.ip), r.createdAt]
  }

  function Canonical(r: AuditRow): string {
    Delimited.Join('|', Fields(r))
  }

  /** The text of a row: its columns in this order, NULL as nothing. */
  lemma CanonicalText(r: AuditRow)
    ensures Canonical(r) == r.id + "|" + (r.user + "|" + (r.action + "|" + (OrEmpty(r.resource) + "|"
                            + (OrEmpty(r.detail) + "|" + (OrEmpty(r.ip) + "|" + r.createdAt)))))
  {
    var fs := Fields(r);
    JoinOfLast('|', fs, 6);
    JoinOfLast('|', fs, 5);
    JoinOfLast('|', fs, 4);
    JoinOfLast('|', fs, 3);
    JoinOfLast('|', fs, 2);
    JoinOfLast('|', fs, 1);
    JoinOfLast('|', fs, 0);
    hide Delimited.Join;
    assert fs[0..] == fs;
  }

  lemma JoinOfLast(d: char, fs: seq<string>, i: nat)
    requires i < |fs|
    ensures Delimited.Join(d, fs[i..]) == if i == |fs| - 1 then fs[i] else fs[i] + [d] + Delimited.Join(d, fs[i + 1..])
  {
    assert i < |fs| - 1 ==> fs[i..][1..] == fs[i + 1..];
  }

  function Sign(mac: (string, string) -> string, secret: string, r: AuditRow): string {
    mac(secret, Canonical(r))
  }

  function VerifyAudit(mac: (string, string) -> string, secret: string, r: AuditRow, signature: string): bool {
    Sign(mac, secret, r) == signature
  }

  /** An ideal message authentication code: distinct messages have distinct codes. */
  ghost predicate Injective(mac: (string, string) -> string, secret: string) {
    forall x, y | mac(secret, x) == mac(secret, y) :: x == y
  }

  function FromFields(fs: seq<string>): (r: AuditRow)
    requires |fs| == 7
    ensures Fields(r) == fs
  {
    AuditRow(fs[0], fs[1], fs[2], Some(fs[3]), Some(fs[4]), Some(fs[5]), fs[6])
  }

  predicate HasPipe(s: string) {
    !Delimited.Free('|', s)
  }

  /** The rows agree, NULL and the empty string being one in the optional columns. */
  predicate SameRow(a: AuditRow, b: AuditRow) {
    && a.id == b.id && a.user == b.user && a.action == b.action && a.createdAt == b.createdAt
    && SameText(a.resource, b.resource) && SameText(a.detail, b.detail) && SameText(a.ip, b.ip)
  }

  predicate SameText(a: Option<string>, b: Option<string>) {
    a == b || (a in {None, Some("")} && b in {None, Some("")})
  }

  /** Some column but the time has a '|'. */
  predicate PipeInside(r: AuditRow) {
    || HasPipe(r.id) || HasPipe(r.user) || HasPipe(r.action)
    || (r.resource.Some? && HasPipe(r.resource.value)) || (r.detail.Some? && HasPipe(r.detail.value))
    || (r.ip.Some? && HasPipe(r.ip.value))
  }

  lemma SameFields(a: AuditRow, b: AuditRow)
    ensures SameRow(a, b) <==> Fields(a) == Fields(b)
  {
    var fs, gs := Fields(a), Fields(b);
    if fs == gs {
      assert fs[0] == gs[0] && fs[1] == gs[1] && fs[2] == gs[2] && fs[3] == gs[3];
      assert fs[4] == gs[4] && fs[5] == gs[5] && fs[6] == gs[6];
    }
  }

  lemma PipeInFields(r: AuditRow)
    ensures PipeInside(r) <==> exists i :: 0 <= i < 6 && HasPipe(Fields(r)[i])
  {
    var fs := Fields(r);
    assert !HasPipe("");
    assert PipeInside(r) ==>
      HasPipe(fs[0]) || HasPipe(fs[1]) || HasPipe(fs[2]) || HasPipe(fs[3]) || HasPipe(fs[4]) || HasPipe(fs[5]);
  }

  /** If no field of a row has a '|', its signature is accepted for exactly the rows that agree with it. */
  lemma TamperingDetected(mac: (string, string) -> string, secret: string, r: AuditRow, tampered: AuditRow)
    requires Injective(mac, secret) && !PipeInside(r) && !HasPipe(r.createdAt)
    ensures VerifyAudit(mac, secret, tampered, Sign(mac, secret, r)) <==> SameRow(tampered, r)
  {
    SameFields(tampered, r);
    PipeInFields(r);
    if VerifyAudit(mac, secret, tampered, Sign(mac, secret, r)) {
      assert Canonical(tampered) == Canonical(r);
      assert forall f | f in Fields(r) :: exists i :: 0 <= i < 7 && Fields(r)[i] == f;
      hide Fields;
      Delimited.JoinInjectiveFixed('|', Fields(r), Fields(tampered));
    }
  }

  /** The condition is exact: some row that does not agree passes verification with this row's signature
      exactly when one of the first six fields has a '|'. (A time in ISO format has none.) */
  lemma UndetectedIff(mac: (string, string) -> string, secret: string, r: AuditRow)
    requires Injective(mac, secret) && !HasPipe(r.createdAt)
    ensures (exists other: AuditRow :: !SameRow(other, r) && other.createdAt == r.createdAt
                                       && VerifyAudit(mac, secret, other, Sign(mac, secret, r)))
       <==> PipeInside(r)
  {
    if PipeInside(r) {
      PipeInFields(r);
      var fs := Fields(r);
      var i :| 0 <= i < 6 && HasPipe(fs[i]);
      var moved := MovePipe(fs, i);
      var other := FromFields(moved);
      SameFields(other, r);
      assert Canonical(other) == Canonical(r);
      assert VerifyAudit(mac, secret, other, Sign(mac, secret, r));
    } else {
      forall other: AuditRow | VerifyAudit(mac, secret, other, Sign(mac, secret, r))
        ensures SameRow(other, r)
      {
        TamperingDetected(mac, secret, r, other);
      }
    }
  }

  /** Move the boundary between field i and a neighbour to a '|' inside field i. */
  lemma MovePipe(fs: seq<string>, i: nat) returns (other: seq<string>)
    requires |fs| == 7 && i < 6 && HasPipe(fs[i])
    ensures |other| == 7 && other != fs && other[6] == fs[6] && Delimited.Join('|', other) == Delimited.Join('|', fs)
  {
    var p :| 0 <= p < |fs[i]| && fs[i][p] == '|';
    var x, y := fs[i][..p], fs[i][p + 1..];
    assert fs[i] == x + ['|'] + y;
    if i == 0 {
      other := [] + [x, y + ['|'] + fs[1]] + fs[2..];
      Delimited.ShiftDelimiter('|', [], x, y, fs[1], fs[2..]);
      assert fs == [] + [x + ['|'] + y, fs[1]] + fs[2..];
    } else {
      other := fs[..i - 1] + [fs[i - 1] + ['|'] + x, y] + fs[i + 1..];
      Delimited.ShiftDelimiter('|', fs[..i - 1], fs[i - 1], x, y, fs[i + 1..]);
      assert fs == fs[..i - 1] + [fs[i - 1], x + ['|'] + y] + fs[i + 1..];
    }
    assert |other[i]| != |fs[i]|;
  }

  /** The log: rows are signed as they are added. */
  class AuditLog {
    const mac: (string, string) -> string
    const secret: string
    var rows: seq<(AuditRow, string)>

    ghost predicate AllVerify()
      reads this
    {
      forall i | 0 <= i < |rows| :: VerifyAudit(mac, secret, rows[i].0, rows[i].1)
    }

    method LogAction(id: string, user: string, action: string, resource: Option<string>, detail: Option<string>,
                     ip: Option<string>, createdAt: string)
      requires AllVerify()
      modifies this
      ensures AllVerify()
      ensures var entry := AuditRow(id, user, action, resource, detail, ip, createdAt);
        rows == old(rows) + [(entry, Sign(mac, secret, entry))]
    {
      var entry := AuditRow(id, user, action, resource, detail, ip, createdAt);
      rows := rows + [(entry, Sign(mac, secret, entry))];
    }
  }

  // ---- Signed requests ----

  /** The library functions the message is built with. */
  datatype Functions = Functions(upper: string -> string, digest: string -> string)

  datatype SignedRequest = SignedRequest(verb: string, path: string, timestamp: string, nonce: string, body: string)

  function MessageFields(f: Functions, r: SignedRequest): (fs: seq<string>)
    ensures fs != []
  {
    [f.upper(r.verb), r.path, r.timestamp, r.nonce] + (if r.body != "" then [f.digest(r.body)] else [])
  }

  function Message(f: Functions, r: SignedRequest): string {
    Delimited.Join('\n', MessageFields(f, r))
  }

  /** The text of a message: its parts in this order, a digest only for a body. */
  lemma MessageText(f: Functions, r: SignedRequest)
    ensures Message(f, r) == f.upper(r.verb) + "\n" + (r.path + "\n" + (r.timestamp + "\n"
                             + (if r.body != "" then r.nonce + "\n" + f.digest(r.body) else r.nonce)))
  {
    var fs := MessageFields(f, r);
    if r.body != "" {
      JoinOfLast('\n', fs, 4);
    }
    JoinOfLast('\n', fs, 3);
    JoinOfLast('\n', fs, 2);
    JoinOfLast('\n', fs, 1);
    JoinOfLast('\n', fs, 0);
    hide Delimited.Join;
    assert fs[0..] == fs;
  }

  predicate NewlineFree(f: Functions, r: SignedRequest) {
    forall s | s in MessageFields(f, r) :: Delimited.Free('\n', s)
  }

  /** Newline-free requests have the same message exactly when they agree on upper-cased method, path,
      timestamp and nonce, and on the body digest, an empty body agreeing with empty bodies only. */
  lemma MessageDetermines(f: Functions, a: SignedRequest, b: SignedRequest)
    requires NewlineFree(f, a) && NewlineFree(f, b)
    ensures Message(f, a) == Message(f, b) <==>
      && f.upper(a.verb) == f.upper(b.verb) && a.path == b.path && a.timestamp == b.timestamp && a.nonce == b.nonce
      && (a.body == "" <==> b.body == "") && (a.body != "" ==> f.digest(a.body) == f.digest(b.body))
  {
    var fs, gs := MessageFields(f, a), MessageFields(f, b);
    if Message(f, a) == Message(f, b) {
      Delimited.JoinInjective('\n', fs, gs);
      assert |fs| == |gs|;
      assert fs[0] == gs[0] && fs[1] == gs[1] && fs[2] == gs[2] && fs[3] == gs[3];
      assert a.body != "" ==> fs[4] == gs[4];
    }
  }

  /** Where the message of a request with a newline in a field, or with a body, could also come from. */
  function OtherReading(f: Functions, r: SignedRequest): SignedRequest {
    if HasNewline(r.nonce) then
      var (x, y) := AtNewline(r.nonce); r.(timestamp := r.timestamp + ['\n'] + x, nonce := y)
    else if HasNewline(r.timestamp) then
      var (x, y) := AtNewline(r.timestamp); r.(timestamp := x, nonce := y + ['\n'] + r.nonce)
    else if HasNewline(r.path) then
      var (x, y) := AtNewline(r.path); r.(path := x, timestamp := y + ['\n'] + r.timestamp)
    else r.(nonce := r.nonce + ['\n'] + f.digest(r.body), body := "")
  }

  predicate HasNewline(s: string) {
    !Delimited.Free('\n', s)
  }

  /** The text before and after the first newline. */
  function AtNewline(s: string): (r: (string, string))
    requires HasNewline(s)
    ensures s == r.0 + ['\n'] + r.1
  {
    if s[0] == '\n' then ("", s[1..]) else
    assert s == [s[0]] + s[1..];
    var (x, y) := AtNewline(s[1..]);
    ([s[0]] + x, y)
  }

  /** A message has a second reading, as other fields, exactly when the request has a body, or a newline in
      its path, timestamp or nonce: the digest of a body can be read as part of the nonce, and the text
      after a newline as part of the next field or of the one before. */
  lemma SecondReadingIff(f: Functions, r: SignedRequest)
    requires !HasNewline(f.upper(r.verb))
    ensures (exists other :: MessageFields(f, other) != MessageFields(f, r) && Message(f, other) == Message(f, r))
       <==> r.body != "" || HasNewline(r.path) || HasNewline(r.timestamp) || HasNewline(r.nonce)
  {
    if r.body != "" || HasNewline(r.path) || HasNewline(r.timestamp) || HasNewline(r.nonce) {
      OtherReadingReads(f, r);
    } else {
      forall other | Message(f, other) == Message(f, r)
        ensures MessageFields(f, other) == MessageFields(f, r)
      {
        OnlyReading(f, r, other);
      }
    }
    hide Message, MessageFields;
  }

  lemma OnlyReading(f: Functions, r: SignedRequest, other: SignedRequest)
    requires r.body == "" && !HasNewline(r.path) && !HasNewline(r.timestamp) && !HasNewline(r.nonce)
    requires !HasNewline(f.upper(r.verb)) && Message(f, other) == Message(f, r)
    ensures MessageFields(f, other) == MessageFields(f, r)
  {
    var fs, gs := MessageFields(f, r), MessageFields(f, other);
    assert fs == [f.upper(r.verb), r.path, r.timestamp, r.nonce];
    Delimited.JoinCount('\n', fs);
    Delimited.JoinCount('\n', gs);
    hide MessageFields;
    Delimited.JoinInjective('\n', fs, gs);
  }

  lemma OtherReadingReads(f: Functions, r: SignedRequest)
    requires r.body != "" || HasNewline(r.path) || HasNewline(r.timestamp) || HasNewline(r.nonce)
    ensures MessageFields(f, OtherReading(f, r)) != MessageFields(f, r)
    ensures Message(f, OtherReading(f, r)) == Message(f, r)
  {
    var other, fs, u := OtherReading(f, r), MessageFields(f, r), f.upper(r.verb);
    var gs := MessageFields(f, other);
    var last := if r.body != "" then [f.digest(r.body)] else [];
    if HasNewline(r.nonce) {
      var (x, y) := AtNewline(r.nonce);
      assert fs == [u, r.path] + [r.timestamp, x + ['\n'] + y] + last;
      assert gs == [u, r.path] + [r.timestamp + ['\n'] + x, y] + last;
      hide MessageFields, AtNewline;
      ShiftedDiffers([u, r.path], r.timestamp, x, y, last);
    } else if HasNewline(r.timestamp) {
      var (x, y) := AtNewline(r.timestamp);
      assert fs == [u, r.path] + [x + ['\n'] + y, r.nonce] + last;
      assert gs == [u, r.path] + [x, y + ['\n'] + r.nonce] + last;
      hide MessageFields, AtNewline;
      ShiftedDiffers([u, r.path], x, y, r.nonce, last);
    } else if HasNewline(r.path) {
      var (x, y) := AtNewline(r.path);
      assert fs == [u] + [x + ['\n'] + y, r.timestamp] + ([r.nonce] + last);
      assert gs == [u] + [x, y + ['\n'] + r.timestamp] + ([r.nonce] + last);
      hide MessageFields, AtNewline;
      ShiftedDiffers([u], x, y, r.timestamp, [r.nonce] + last);
    } else {
      var d := f.digest(r.body);
      assert fs == [u, r.path, r.timestamp] + [r.nonce, d];
      assert gs == [u, r.path, r.timestamp] + [r.nonce + ['\n'] + d];
      JoinLastTwo('\n', [u, r.path, r.timestamp], r.nonce, d);
    }
  }

  /** Moving a newline from one field to the next gives other fields with the same message. */
  lemma ShiftedDiffers(pre: seq<string>, a: string, x: string, y: string, post: seq<string>)
    ensures var fs, gs := pre + [a + ['\n'] + x, y] + post, pre + [a, x + ['\n'] + y] + post;
      fs != gs && Delimited.Join('\n', fs) == Delimited.Join('\n', gs)
  {
    Delimited.ShiftDelimiter('\n', pre, a, x, y, post);
    var fs, gs := pre + [a + ['\n'] + x, y] + post, pre + [a, x + ['\n'] + y] + post;
    assert |fs[|pre|]| > |gs[|pre|]|;
  }

  lemma {:induction false} JoinLastTwo(d: char, pre: seq<string>, a: string, b: string)
    ensures Delimited.Join(d, pre + [a, b]) == Delimited.Join(d, pre + [a + [d] + b])
  {
    if pre == [] {
      assert [a, b][1..] == [b] && pre + [a, b] == [a, b] && pre + [a + [d] + b] == [a + [d] + b];
    } else {
      JoinLastTwo(d, pre[1..], a, b);
      assert (pre + [a, b])[1..] == pre[1..] + [a, b];
      assert (pre + [a + [d] + b])[1..] == pre[1..] + [a + [d] + b];
    }
  }
}
