/** The custom resources the controller reads, with their references resolved
    (api/v1alpha1). They do not change during a run. */
module Resources {
  import opened Statements

  /** spec.postgreSQL of a Database, with its secrets read. */
  datatype Postgres = Postgres(host: string, port: nat, user: string, password: string, name: string,
                               sslMode: string, caCert: string, userCert: string, userKey: string)
  {
    /** Roles belong to the server, not to one of its databases. */
    function Address(): (string, nat) {
      (host, port)
    }

    /** User certificates are configured, so CREATE USER also issues some. */
    predicate IssuesCertificates() {
      userCert != "" || userKey != ""
    }

    /** The connection string names certificate files. */
    predicate NamesFiles() {
      caCert != "" || IssuesCertificates()
    }
  }

  /** One entry of spec.databases of a User: `lists` holds, in order, the contents of the
      Privileges resources it refers to. */
  datatype Ref = Ref(database: Postgres, password: string, createdSecret: string, lists: seq<seq<PrivilegeSpec>>)
  {
    function Privileges(): seq<PrivilegeSpec> {
      Flatten(lists)
    }

    /** The entry is executed on a second connection to the ref's own database, whose end
        removes the certificate files of the first. */
    predicate TakesFiles(p: PrivilegeSpec) {
      database.NamesFiles() && p.InDatabase() && p.database == database.name
    }

    /** The certificate files of the ref's connection are gone after `n` entries. */
    predicate FilesGone(n: nat) {
      exists j :: 0 <= j < n && j < |Privileges()| && TakesFiles(Privileges()[j])
    }
  }

  function Flatten(lists: seq<seq<PrivilegeSpec>>): seq<PrivilegeSpec> {
    if lists == [] then [] else Flatten(lists[..|lists| - 1]) + lists[|lists| - 1]
  }

  /** Each list is in its place: after those before it and before those after it. */
  lemma {:induction false} FlattenAt(lists: seq<seq<PrivilegeSpec>>, i: nat)
    requires i < |lists|
    ensures Flatten(lists) == Flatten(lists[..i]) + lists[i] + Flatten(lists[i + 1..])
    decreases |lists|
  {
    var n := |lists| - 1;
    if i == n {
      assert lists[i + 1..] == [];
    } else {
      FlattenAt(lists[..n], i);
      assert lists[..n][..i] == lists[..i];
      assert lists[i + 1..][..n - i - 1] == lists[..n][i + 1..];
    }
  }

  /** A User object's name and spec. */
  datatype Desired = Desired(name: string, refs: seq<Ref>)
}
