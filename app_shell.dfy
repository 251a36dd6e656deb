/** The application shell (src/components/layout/AppShell.tsx): the sidebar
    starts open and, once mounted, takes its state from the `sidebar_state`
    cookie. `document.cookie` is a parameter: `None` when reading it throws. */
module AppShell {
  import opened Wrappers
  import opened JsString

  const SidebarCookieName := "sidebar_state"
  /** `${SIDEBAR_COOKIE_NAME}=`. */
  const CookiePrefix := SidebarCookieName + "="

  /** `rows.find(row => row.startsWith(prefix))`, as the index of the row found. */
  function FindRow(rows: seq<string>, prefix: string): (r: Option<nat>)
    ensures r.Some? ==> r.value < |rows| && StartsWith(rows[r.value], prefix)
    ensures r.Some? ==> forall j :: 0 <= j < r.value ==> !StartsWith(rows[j], prefix)
    ensures r.None? ==> forall j :: 0 <= j < |rows| ==> !StartsWith(rows[j], prefix)
  {
    if rows == [] then None
    else if StartsWith(rows[0], prefix) then Some(0)
    else
      match FindRow(rows[1..], prefix)
      case None => None
      case Some(k) => Some(k + 1)
  }

  /** The cookie's row split at '=' has at least two pieces, and the second
      is the text after "sidebar_state=" up to the next '='. */
  lemma {:induction false} SplitCookieRow(row: string)
    requires StartsWith(row, CookiePrefix)
    ensures |Split(row, "=")| >= 2
    ensures Split(row, "=")[1] == Split(row[|CookiePrefix|..], "=")[0]
  {
    var n := |SidebarCookieName|;
    assert row[n..n + 1] == "=" by {
      assert row[..n + 1] == CookiePrefix;
    }
    assert OccursAt(row, "=", n);
    assert NoEquals(SidebarCookieName);
    forall i | 0 <= i < n ensures !OccursAt(row, "=", i) {
      assert row[i] == CookiePrefix[i] == SidebarCookieName[i];
      if i + 1 <= |row| {
        assert row[i..i + 1][0] == row[i];
      }
    }
    assert IndexOf(row, "=") == Some(n);
    assert Split(row, "=") == [row[..n]] + Split(row[n + 1..], "=");
  }

  /** The value of the `sidebar_state` cookie: the piece after the first '='
      of the first "; "-separated row starting with "sidebar_state=". */
  function CookieValue(cookie: string): (v: Option<string>)
    ensures v.None? ==> forall j :: 0 <= j < |Split(cookie, "; ")| ==> !StartsWith(Split(cookie, "; ")[j], CookiePrefix)
    ensures v.Some? ==> exists j :: 0 <= j < |Split(cookie, "; ")| && StartsWith(Split(cookie, "; ")[j], CookiePrefix)
    ensures v.Some? ==> exists k :: FindRow(Split(cookie, "; "), CookiePrefix) == Some(k) &&
                          v.value == Split(Split(cookie, "; ")[k][|CookiePrefix|..], "=")[0]
  {
    var rows := Split(cookie, "; ");
    var found := FindRow(rows, CookiePrefix);
    if found.None? then None
    else
      var k := found.value;
      SplitCookieRow(rows[k]);
      Some(Split(rows[k], "=")[1])
  }

  /** The state the mount effect settles on: closed only for the exact value
      "false"; "true", any other value, no cookie or a failed read: open. */
  function InitialOpen(cookie: Option<string>): (open: bool)
    ensures !open <==> cookie.Some? && CookieValue(cookie.value) == Some("false")
  {
    !(cookie.Some? && CookieValue(cookie.value) == Some("false"))
  }

  /** No character is ';' (so the piece cannot contain "; "). */
  predicate NoSemicolon(s: string) {
    forall i :: 0 <= i < |s| ==> s[i] != ';'
  }

  /** No character is '='. */
  predicate NoEquals(s: string) {
    forall i :: 0 <= i < |s| ==> s[i] != '='
  }

  /** The row `sidebar_state=value` splits at '=' into the name and `value`. */
  lemma {:induction false} RowValue(value: string)
    requires NoEquals(value)
    ensures |Split(CookiePrefix + value, "=")| >= 2 && Split(CookiePrefix + value, "=")[1] == value
  {
    var row := CookiePrefix + value;
    assert row[..|CookiePrefix|] == CookiePrefix;
    SplitCookieRow(row);
    assert row[|CookiePrefix|..] == value;
    forall i | 0 <= i ensures !OccursAt(value, "=", i) {
      if i + 1 <= |value| {
        assert value[i..i + 1][0] == value[i];
      }
    }
    assert IndexOf(value, "=") == None;
  }

  /** No row of the cookie string contains ';'. */
  lemma {:induction false} RowsAvoidSeparator(before: seq<string>, value: string, after: seq<string>)
    requires forall j :: 0 <= j < |before| ==> NoSemicolon(before[j])
    requires forall j :: 0 <= j < |after| ==> NoSemicolon(after[j])
    requires NoSemicolon(value)
    ensures forall j :: 0 <= j < |before + [CookiePrefix + value] + after| ==>
              Avoids((before + [CookiePrefix + value] + after)[j], "; ")
  {
    var row := CookiePrefix + value;
    var rows := before + [row] + after;
    assert NoSemicolon(row) by {
      forall i | 0 <= i < |row| ensures row[i] != ';' {
        if i >= |CookiePrefix| {
          assert row[i] == value[i - |CookiePrefix|];
        }
      }
    }
    forall j | 0 <= j < |rows| ensures Avoids(rows[j], "; ") {
      if j < |before| {
        assert rows[j] == before[j];
      } else if j > |before| {
        assert rows[j] == after[j - |before| - 1];
      }
    }
  }

  /** A cookie string with `sidebar_state=value` after rows that are other
      cookies reads back as `value`. */
  lemma {:induction false} CookieReadsBack(before: seq<string>, value: string, after: seq<string>)
    requires forall j :: 0 <= j < |before| ==> NoSemicolon(before[j]) && !StartsWith(before[j], CookiePrefix)
    requires forall j :: 0 <= j < |after| ==> NoSemicolon(after[j])
    requires NoSemicolon(value) && NoEquals(value)
    ensures CookieValue(Join(before + [CookiePrefix + value] + after, "; ")) == Some(value)
  {
    var rows := before + [CookiePrefix + value] + after;
    RowsAvoidSeparator(before, value, after);
    SplitJoin(rows, "; ");
    forall j | 0 <= j < |before| ensures !StartsWith(rows[j], CookiePrefix) {
      assert rows[j] == before[j];
    }
    FindFirst(rows, CookiePrefix, |before|);
    RowValue(value);
  }

  /** `FindRow` finds the first row with the prefix. */
  lemma {:induction false} FindFirst(rows: seq<string>, prefix: string, k: int)
    requires 0 <= k < |rows| && StartsWith(rows[k], prefix)
    requires forall j :: 0 <= j < k ==> !StartsWith(rows[j], prefix)
    ensures FindRow(rows, prefix) == Some(k)
  {
    if k > 0 {
      FindFirst(rows[1..], prefix, k - 1);
    }
  }

  /** The sidebar closes exactly when the stored value is "false". */
  lemma {:induction false} StoredStateReadsBack(before: seq<string>, value: string, after: seq<string>)
    requires forall j :: 0 <= j < |before| ==> NoSemicolon(before[j]) && !StartsWith(before[j], CookiePrefix)
    requires forall j :: 0 <= j < |after| ==> NoSemicolon(after[j])
    requires NoSemicolon(value) && NoEquals(value)
    ensures InitialOpen(Some(Join(before + [CookiePrefix + value] + after, "; "))) <==> value != "false"
  {
    CookieReadsBack(before, value, after);
  }

  class Shell {
    var isSidebarOpen: bool

    /** `useState(true)`: open before the cookie is read. */
    constructor ()
      ensures isSidebarOpen
    {
      isSidebarOpen := true;
    }

    /** The mount effect. */
    method OnMount(cookie: Option<string>)
      modifies this
      ensures isSidebarOpen == InitialOpen(cookie)
    {
      var initialOpenState := true;
      if cookie.Some? {
        var cookieValue := CookieValue(cookie.value);
        if cookieValue == Some("false") {
          initialOpenState := false;
        } else if cookieValue == Some("true") {
          initialOpenState := true;
        }
      }
      isSidebarOpen := initialOpenState;
    }

    /** The provider's `onOpenChange`. */
    method SetOpen(open: bool)
      modifies this
      ensures isSidebarOpen == open
    {
      isSidebarOpen := open;
    }
  }
}
