/** http::RqTarget: parsing, validation, normalisation and printing of a
    request target (section 3 of RFC 3986). */
module RqTarget {
  import opened Octets
  import opened NumericUtils
  import opened PercentCodec
  import opened PathNormalization
  import opened DotSegments

  const RQ_TARGET_LEN_LIMIT: nat := 8192

  datatype Flag = TooLong | BadScheme | HasUserInfo | BadHost | BadPort | BadPath | BadQuery | HasFragment

  type Component = Option<Bytes>

  datatype Target = Target(validity: set<Flag>, scheme: Component, userInfo: Component, host: Component,
                           port: Component, path: Component, query: Component, fragment: Component)
  {
    predicate Good() { validity == {} }
  }

  const EMPTY: Target := Target({}, None, None, None, None, None, None, None)
  const HTTP: Bytes := ['h', 't', 't', 'p']
  const SCHEME_SEP: Bytes := [':', '/', '/']

  // ----- the component parsers: what each one takes, and where it stops

  function SchemePart(raw: Bytes): (r: (Component, nat))
    ensures r.1 <= |raw|
  {
    match FindStr(raw, SCHEME_SEP, 0)
    case None => (None, 0)
    case Some(e) => (Some(LowerCase(raw[..e])), e + 3)
  }

  function UserInfoPart(raw: Bytes, pos: nat, scheme: Component): (r: (Component, nat))
    requires pos <= |raw|
    ensures r.1 <= |raw|
  {
    if scheme.None? || pos >= |raw| then (None, pos)
    else
      var e := FindAny(raw, ['@'], pos);
      if e == |raw| then (None, pos) else (Some(raw[pos..e]), e + 1)
  }

  function HostPart(raw: Bytes, pos: nat, scheme: Component): (r: (Component, nat))
    requires pos <= |raw|
    ensures r.1 <= |raw|
  {
    if scheme.None? || pos >= |raw| then (None, pos)
    else var e := FindAny(raw, [':', '/'], pos); (Some(LowerCase(raw[pos..e])), e)
  }

  function PortPart(raw: Bytes, pos: nat, host: Component): (r: (Component, nat))
    requires pos <= |raw|
    ensures r.1 <= |raw|
  {
    if host.None? || pos >= |raw| || raw[pos] != ':' then (None, pos)
    else var e := FindAny(raw, ['/', '?', '#'], pos + 1); (Some(raw[pos + 1..e]), e)
  }

  predicate RootedPath(path: Component) { path.Some? ==> path.value != [] && path.value[0] == '/' }

  function PathPart(raw: Bytes, pos: nat): (r: (Component, nat))
    requires pos <= |raw|
    ensures r.1 <= |raw| && RootedPath(r.0)
  {
    if pos >= |raw| || raw[pos] != '/' then (None, pos)
    else var e := FindAny(raw, ['?', '#'], pos); (Some(raw[pos..e]), e)
  }

  function QueryPart(raw: Bytes, pos: nat): (r: (Component, nat))
    requires pos <= |raw|
    ensures r.1 <= |raw|
  {
    if pos >= |raw| || raw[pos] != '?' then (None, pos)
    else var e := FindAny(raw, ['#'], pos + 1); (Some(raw[pos + 1..e]), e)
  }

  function FragmentPart(raw: Bytes, pos: nat): Component
    requires pos <= |raw|
  {
    if pos >= |raw| || raw[pos] != '#' then None else Some(raw[pos + 1..])
  }

  function Split(raw: Bytes): (t: Target)
    ensures RootedPath(t.path)
  {
    var scheme := SchemePart(raw);
    var userInfo := UserInfoPart(raw, scheme.1, scheme.0);
    var host := HostPart(raw, userInfo.1, scheme.0);
    var port := PortPart(raw, host.1, host.0);
    var path := PathPart(raw, port.1);
    var query := QueryPart(raw, path.1);
    Target(if path.0.None? then {BadPath} else {},
           scheme.0, userInfo.0, host.0, port.0, path.0, query.0, FragmentPart(raw, query.1))
  }

  // ----- validation

  predicate IsEncodedOctet(s: Bytes) {
    |s| >= 3 && s[0] == '%' && IsHexDigit(s[1]) && IsHexDigit(s[2])
  }

  predicate SubDelim(c: char) {
    c in ['!', '$', '&', '\'', '(', ')', '*', '+', ',', ';', '=']
  }

  datatype Alphabet = HostChars | PathChars | QueryChars

  // Every strchr test also accepts NUL.
  predicate Allowed(alphabet: Alphabet, c: char) {
    || InUnreserved(c)
    || (alphabet != HostChars && SubDelim(c))
    || (alphabet != HostChars && c in [':', '@', '/'])
    || (alphabet == QueryChars && c == '?')
  }

  predicate ValidChars(alphabet: Alphabet, s: Bytes) {
    s == [] || (if IsEncodedOctet(s) then ValidChars(alphabet, s[3..])
                else Allowed(alphabet, s[0]) && ValidChars(alphabet, s[1..]))
  }

  predicate ValidPath(path: Bytes) {
    path != [] && path[0] == '/' && (|path| >= 2 ==> path[1] != '/') && ValidChars(PathChars, path)
  }

  function SchemeFlags(scheme: Component): set<Flag> {
    if scheme.Some? && scheme.value != HTTP then {BadScheme} else {}
  }

  function UserInfoFlags(userInfo: Component): set<Flag> {
    if userInfo.Some? then {HasUserInfo} else {}
  }

  function HostFlags(scheme: Component, host: Component): set<Flag> {
    if host.None? then {}
    else if scheme.None? then {BadScheme}
    else if host.value == [] || !ValidChars(HostChars, host.value) then {BadHost} else {}
  }

  function PortFlags(scheme: Component, host: Component, port: Component): set<Flag> {
    if port.None? then {}
    else if scheme.None? then {BadScheme}
    else if host.None? then {BadHost}
    else if port.value == [] || StrToUnsigned(port.value, USHORT_MAX).None? then {BadPort} else {}
  }

  function PathFlags(path: Component): set<Flag> {
    if path.Some? && !ValidPath(path.value) then {BadPath} else {}
  }

  function QueryFlags(query: Component): set<Flag> {
    if query.Some? && !ValidChars(QueryChars, query.value) then {BadQuery} else {}
  }

  function FragmentFlags(fragment: Component): set<Flag> {
    if fragment.Some? then {HasFragment} else {}
  }

  function Checked(t: Target): (r: Target)
    ensures r.path == t.path
  {
    t.(validity := t.validity + SchemeFlags(t.scheme) + UserInfoFlags(t.userInfo) + HostFlags(t.scheme, t.host)
                   + PortFlags(t.scheme, t.host, t.port) + PathFlags(t.path) + QueryFlags(t.query)
                   + FragmentFlags(t.fragment))
  }

  // ----- normalisation

  const PATH_KEEP: KeepSet := Some(['/'])
  const QUERY_KEEP: KeepSet := Some(['&', '='])

  function OrElse<T>(o: Option<T>, d: T): T { if o.Some? then o.value else d }

  function FlagUnless(ok: bool, f: Flag): set<Flag> { if ok then {} else {f} }

  function NormHost(t: Target): (r: Target)
    ensures r.path == t.path
  {
    if t.host.None? then t
    else
      var decoded := Decode(t.host.value, None);
      t.(host := Some(UpperHex(OrElse(decoded, t.host.value))),
         validity := t.validity + FlagUnless(decoded.Some?, BadHost))
  }

  function NormPort(t: Target): (r: Target)
    ensures r.path == t.path
  {
    if t.port == Some(['8', '0']) && t.scheme == Some(HTTP) then t.(port := None) else t
  }

  /** The path after decoding, upper-casing and collapsing. */
  function FlattenedPath(path: Bytes): Bytes {
    Collapse(UpperHex(OrElse(Decode(path, PATH_KEEP), path)))
  }

  lemma FlattenedPathIsRooted(path: Bytes)
    requires path != [] && path[0] == '/'
    ensures Rooted(FlattenedPath(path))
  {
    var decoded := Decode(path, PATH_KEEP);
    assert OrElse(decoded, path)[0] == '/';
    var u := UpperHex(OrElse(decoded, path));
    assert u[0] == '/';
    assert CollapseFrom(u, 0) == [u[0]] + CollapseFrom(u, 1);
  }

  function NormPath(t: Target): Target
    requires RootedPath(t.path)
  {
    if t.path.None? then t
    else
      var flat := FlattenedPath(t.path.value);
      FlattenedPathIsRooted(t.path.value);
      var dotless := RemoveDots(flat);
      t.(path := Some(OrElse(dotless, flat)),
         validity := t.validity + FlagUnless(Decode(t.path.value, PATH_KEEP).Some?, BadPath)
                     + FlagUnless(dotless.Some?, BadPath))
  }

  function NormQuery(t: Target): Target {
    if t.query.None? then t
    else
      var decoded := Decode(t.query.value, QUERY_KEEP);
      t.(query := Some(UpperHex(OrElse(decoded, t.query.value))),
         validity := t.validity + FlagUnless(decoded.Some?, BadQuery))
  }

  function Normalized(t: Target): Target
    requires RootedPath(t.path)
  {
    NormQuery(NormPath(NormPort(NormHost(t))))
  }

  function Parse(raw: Bytes): Target {
    if |raw| > RQ_TARGET_LEN_LIMIT then EMPTY.(validity := {TooLong})
    else Normalized(Checked(Split(raw)))
  }

  function Encoded(c: Component, keep: KeepSet): Component { if c.Some? then Some(Encode(c.value, keep)) else None }

  // What streaming one component adds to the text so far.
  function Streamed(ss: Bytes, before: Bytes, c: Component, after: Bytes): Bytes {
    if c.Some? then ss + (before + c.value + after) else ss
  }

  function Print(t: Target): Bytes {
    var s1 := Streamed([], [], t.scheme, SCHEME_SEP);
    var s2 := Streamed(s1, [], t.userInfo, ['@']);
    var s3 := Streamed(s2, [], t.host, []);
    var s4 := Streamed(s3, [':'], t.port, []);
    var s5 := Streamed(s4, [], Encoded(t.path, PATH_KEEP), []);
    var s6 := Streamed(s5, ['?'], Encoded(t.query, QUERY_KEEP), []);
    Streamed(s6, ['#'], t.fragment, [])
  }

  // ----- the class

  class RqTarget {
    var validity: set<Flag>
    var scheme: Component
    var userInfo: Component
    var host: Component
    var port: Component
    var path: Component
    var query: Component
    var fragment: Component

    function Value(): Target
      reads this
    {
      Target(validity, scheme, userInfo, host, port, path, query, fragment)
    }

    constructor (raw: Bytes)
      ensures Value() == Parse(raw)
    {
      validity := {};
      scheme, userInfo, host, port, path, query, fragment := None, None, None, None, None, None, None;
      new;
      hide SchemePart;
      hide UserInfoPart;
      hide HostPart;
      hide PortPart;
      hide PathPart;
      hide QueryPart;
      hide FragmentPart;
      if |raw| > RQ_TARGET_LEN_LIMIT {
        validity := validity + {TooLong};
        return;
      }
      var pos := ParseScheme(raw);
      pos := ParseUserInfo(raw, pos);
      pos := ParseHost(raw, pos);
      pos := ParsePort(raw, pos);
      pos := ParsePath(raw, pos);
      pos := ParseQuery(raw, pos);
      ParseFragment(raw, pos);
      assert Value() == Split(raw);
      Validate();
      Normalize();
    }

    method ParseScheme(raw: Bytes) returns (pos: nat)
      modifies `scheme
      ensures (scheme, pos) == SchemePart(raw) && pos <= |raw|
    {
      var end := FindStr(raw, SCHEME_SEP, 0);
      if end.None? {
        scheme := None;
        return 0;
      }
      scheme := Some(LowerCase(raw[..end.value]));
      pos := end.value + 3;
    }

    method ParseUserInfo(raw: Bytes, start: nat) returns (pos: nat)
      requires start <= |raw| && userInfo.None?
      modifies `userInfo
      ensures (userInfo, pos) == UserInfoPart(raw, start, scheme) && pos <= |raw|
    {
      if scheme.None? || start >= |raw| {
        return start;
      }
      var end := FindAny(raw, ['@'], start);
      if end == |raw| {
        userInfo := None;
        return start;
      }
      userInfo := Some(raw[start..end]);
      pos := end + 1;
    }

    method ParseHost(raw: Bytes, start: nat) returns (pos: nat)
      requires start <= |raw| && host.None?
      modifies `host
      ensures (host, pos) == HostPart(raw, start, scheme) && pos <= |raw|
      ensures host.Some? ==> scheme.Some?
    {
      if scheme.None? || start >= |raw| {
        return start;
      }
      pos := FindAny(raw, [':', '/'], start);
      host := Some(LowerCase(raw[start..pos]));
    }

    method ParsePort(raw: Bytes, start: nat) returns (pos: nat)
      requires start <= |raw| && port.None?
      modifies `port
      ensures (port, pos) == PortPart(raw, start, host) && pos <= |raw|
      ensures port.Some? ==> host.Some?
    {
      if host.None? || start >= |raw| || raw[start] != ':' {
        return start;
      }
      pos := FindAny(raw, ['/', '?', '#'], start + 1);
      port := Some(raw[start + 1..pos]);
    }

    method ParsePath(raw: Bytes, start: nat) returns (pos: nat)
      requires start <= |raw| && path.None?
      modifies `path, `validity
      ensures (path, pos) == PathPart(raw, start) && pos <= |raw|
      ensures RootedPath(path)
      ensures validity == if path.None? then {BadPath} else old(validity)
    {
      if start >= |raw| || raw[start] != '/' {
        validity := {BadPath};
        return start;
      }
      pos := FindAny(raw, ['?', '#'], start);
      path := Some(raw[start..pos]);
    }

    method ParseQuery(raw: Bytes, start: nat) returns (pos: nat)
      requires start <= |raw| && query.None?
      modifies `query
      ensures (query, pos) == QueryPart(raw, start) && pos <= |raw|
    {
      if start >= |raw| || raw[start] != '?' {
        return start;
      }
      pos := FindAny(raw, ['#'], start + 1);
      query := Some(raw[start + 1..pos]);
    }

    method ParseFragment(raw: Bytes, start: nat)
      requires start <= |raw| && fragment.None?
      modifies `fragment
      ensures fragment == FragmentPart(raw, start)
    {
      if start >= |raw| || raw[start] != '#' {
        return;
      }
      fragment := Some(raw[start + 1..]);
    }

    method Validate()
      modifies `validity
      ensures Value() == Checked(old(Value()))
    {
      ValidateScheme();
      validity := validity + UserInfoFlags(userInfo);
      ValidateHost();
      ValidatePort();
      ValidatePath();
      ValidateQuery();
      validity := validity + FragmentFlags(fragment);
    }

    method ValidateScheme()
      modifies `validity
      ensures validity == old(validity) + SchemeFlags(scheme)
    {
      if scheme.None? {
        return;
      }
      if scheme.value != HTTP {
        validity := validity + {BadScheme};
      }
    }

    method ValidateHost()
      modifies `validity
      ensures validity == old(validity) + HostFlags(scheme, host)
    {
      if host.None? {
        return;
      }
      if scheme.None? {
        validity := validity + {BadScheme};
        return;
      }
      var h := host.value;
      if h == [] {
        validity := validity + {BadHost};
      }
      var i := 0;
      assert h[0..] == h;
      while i < |h|
        invariant 0 <= i <= |h|
        invariant validity == old(validity) || validity == old(validity) + {BadHost}
        invariant h == [] ==> BadHost in validity
        invariant BadHost !in validity ==> (ValidChars(HostChars, h) <==> ValidChars(HostChars, h[i..]))
        invariant BadHost in validity && BadHost !in old(validity) ==> h == [] || !ValidChars(HostChars, h)
      {
        assert h[i..][1..] == h[i + 1..];
        if IsEncodedOctet(h[i..]) {
          assert h[i..][3..] == h[i + 3..];
          i := i + 3;
          continue;
        }
        if InUnreserved(h[i]) {
          i := i + 1;
          continue;
        }
        validity := validity + {BadHost};
        i := i + 1;
      }
      assert h[i..] == [];
    }

    method ValidatePort()
      modifies `validity
      ensures validity == old(validity) + PortFlags(scheme, host, port)
    {
      if port.None? {
        return;
      }
      if scheme.None? {
        validity := validity + {BadScheme};
        return;
      }
      if host.None? {
        validity := validity + {BadHost};
        return;
      }
      if port.value == [] || StrToUnsigned(port.value, USHORT_MAX).None? {
        validity := validity + {BadPort};
      }
    }

    method ValidatePath()
      modifies `validity
      ensures validity == old(validity) + PathFlags(path)
    {
      if path.None? {
        return;
      }
      if path.value == [] || path.value[0] != '/' {
        validity := validity + {BadPath};
        return;
      }
      var p := path.value;
      var i := 0;
      assert p[0..] == p;
      while i < |p|
        invariant 0 <= i <= |p|
        invariant validity == old(validity) || validity == old(validity) + {BadPath}
        invariant i > 1 ==> |p| >= 2 && p[1] != '/'
        invariant BadPath !in validity ==> (ValidChars(PathChars, p) <==> ValidChars(PathChars, p[i..]))
        invariant BadPath in validity && BadPath !in old(validity) ==> !ValidPath(p)
      {
        assert p[i..][1..] == p[i + 1..];
        if i == 1 && p[i] == '/' {
          validity := validity + {BadPath};
          return;
        }
        if IsEncodedOctet(p[i..]) {
          assert p[i..][3..] == p[i + 3..];
          i := i + 3;
          continue;
        }
        if InUnreserved(p[i]) || SubDelim(p[i]) || p[i] in [':', '@', '/'] {
          i := i + 1;
          continue;
        }
        validity := validity + {BadPath};
        i := i + 1;
      }
      assert p[i..] == [];
    }

    method ValidateQuery()
      modifies `validity
      ensures validity == old(validity) + QueryFlags(query)
    {
      if query.None? {
        return;
      }
      var q := query.value;
      var i := 0;
      assert q[0..] == q;
      while i < |q|
        invariant 0 <= i <= |q|
        invariant validity == old(validity)
        invariant ValidChars(QueryChars, q) <==> ValidChars(QueryChars, q[i..])
      {
        assert q[i..][1..] == q[i + 1..];
        if IsEncodedOctet(q[i..]) {
          assert q[i..][3..] == q[i + 3..];
          i := i + 3;
          continue;
        }
        if InUnreserved(q[i]) || SubDelim(q[i]) || q[i] in [':', '@', '/', '?'] {
          i := i + 1;
          continue;
        }
        validity := validity + {BadQuery};
        return;
      }
      assert q[i..] == [];
    }

    method Normalize()
      requires path.Some? ==> path.value != [] && path.value[0] == '/'
      requires port.Some? ==> scheme.Some?
      modifies this
      ensures Value() == Normalized(old(Value()))
    {
      NormalizeHost();
      if port == Some(['8', '0']) && scheme.value == HTTP {
        port := None;
      }
      NormalizePath();
      NormalizeQuery();
    }

    method NormalizeHost()
      modifies `host, `validity
      ensures Value() == NormHost(old(Value()))
    {
      if host.Some? {
        var decoded := PercentDecode(host.value, None);
        if decoded.Some? {
          host := decoded;
        } else {
          validity := validity + {BadHost};
        }
        var upper := ConvertEncodedHexToUpper(host.value);
        host := Some(upper);
      }
    }

    method NormalizePath()
      requires path.Some? ==> path.value != [] && path.value[0] == '/'
      modifies `path, `validity
      ensures Value() == NormPath(old(Value()))
    {
      if path.Some? {
        FlattenedPathIsRooted(path.value);
        var decoded := PercentDecode(path.value, PATH_KEEP);
        if decoded.Some? {
          path := decoded;
        } else {
          validity := validity + {BadPath};
        }
        var upper := ConvertEncodedHexToUpper(path.value);
        path := Some(upper);
        var collapsed := CollapseSlashes(path.value);
        path := Some(collapsed);
        var dotFree, _ := RemoveDotSegments(path.value);
        if dotFree.Some? {
          path := dotFree;
        } else {
          validity := validity + {BadPath};
        }
      }
    }

    method NormalizeQuery()
      modifies `query, `validity
      ensures Value() == NormQuery(old(Value()))
    {
      if query.Some? {
        var decoded := PercentDecode(query.value, QUERY_KEEP);
        if decoded.Some? {
          query := decoded;
        } else {
          validity := validity + {BadQuery};
        }
        var upper := ConvertEncodedHexToUpper(query.value);
        query := Some(upper);
      }
    }

    method ToStr() returns (ss: Bytes)
      ensures ss == Print(Value())
    {
      ss := [];
      ss := Stream(ss, [], scheme, SCHEME_SEP);
      ss := Stream(ss, [], userInfo, ['@']);
      ss := Stream(ss, [], host, []);
      ss := Stream(ss, [':'], port, []);
      ss := StreamEncoded(ss, [], path, PATH_KEEP);
      ss := StreamEncoded(ss, ['?'], query, QUERY_KEEP);
      ss := Stream(ss, ['#'], fragment, []);
    }

    static method Stream(ss: Bytes, before: Bytes, c: Component, after: Bytes) returns (r: Bytes)
      ensures r == Streamed(ss, before, c, after)
    {
      r := ss;
      if c.Some? {
        r := r + (before + c.value + after);
      }
    }

    static method StreamEncoded(ss: Bytes, before: Bytes, c: Component, keep: KeepSet) returns (r: Bytes)
      ensures r == Streamed(ss, before, Encoded(c, keep), [])
    {
      r := ss;
      if c.Some? {
        var encoded := PercentEncode(c.value, keep);
        r := r + (before + encoded + []);
      }
    }
  }
}
