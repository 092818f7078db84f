/**
 * The tournament setup form (src/components/TournamentSettings.tsx): the list of
 * player names, kept between 2 and 16 entries by the add and remove buttons, and
 * the guard that passes the trimmed names on only when none of them is blank.
 *
 * The React state becomes the fields of a class; each handler is a method. The
 * `onCreateTournament` callback becomes the result of HandleCreate.
 */
module SettingsForm {
  import opened Wrappers
  import opened Types

  const MaxPlayers := 16
  const MinPlayers := 2

  // ----- String.prototype.trim -----

  /** The characters ECMAScript's trim removes: WhiteSpace and LineTerminator. */
  predicate IsWhitespace(c: char)
  {
    c == '\t' || c == '\n' || c == '\U{000B}' || c == '\U{000C}' || c == '\r' || c == ' '
    || c == '\U{00A0}' || c == '\U{1680}' || ('\U{2000}' <= c <= '\U{200A}') || c == '\U{2028}' || c == '\U{2029}'
    || c == '\U{202F}' || c == '\U{205F}' || c == '\U{3000}' || c == '\U{FEFF}'
  }

  /** Drops leading whitespace. */
  function TrimStart(s: string): string
  {
    if s != [] && IsWhitespace(s[0]) then TrimStart(s[1..]) else s
  }

  /** Drops trailing whitespace. */
  function TrimEnd(s: string): string
  {
    if s != [] && IsWhitespace(s[|s| - 1]) then TrimEnd(s[..|s| - 1]) else s
  }

  function Trim(s: string): string
  {
    TrimEnd(TrimStart(s))
  }

  /** Every character is whitespace. */
  predicate Blank(s: string)
  {
    forall j :: 0 <= j < |s| ==> IsWhitespace(s[j])
  }

  /** trimStart drops a blank prefix and leaves nothing or a non-whitespace first character. */
  lemma {:induction false} TrimStartSpec(s: string)
    ensures TrimStart(s) == [] || !IsWhitespace(TrimStart(s)[0])
    ensures |TrimStart(s)| <= |s| && TrimStart(s) == s[|s| - |TrimStart(s)|..]
    ensures Blank(s[..|s| - |TrimStart(s)|])
  {
    if s != [] && IsWhitespace(s[0]) {
      TrimStartSpec(s[1..]);
      var i := |s| - |TrimStart(s)|;
      assert s[1..][i - 1..] == s[i..];
      forall j | 0 <= j < i
        ensures IsWhitespace(s[j])
      {
        if j > 0 {
          assert s[j] == s[1..][..i - 1][j - 1];
        }
      }
    }
  }

  /** trimEnd drops a blank suffix and leaves nothing or a non-whitespace last character. */
  lemma {:induction false} TrimEndSpec(s: string)
    ensures TrimEnd(s) == [] || !IsWhitespace(TrimEnd(s)[|TrimEnd(s)| - 1])
    ensures |TrimEnd(s)| <= |s| && TrimEnd(s) == s[..|TrimEnd(s)|]
    ensures Blank(s[|TrimEnd(s)|..])
  {
    if s != [] && IsWhitespace(s[|s| - 1]) {
      var p := s[..|s| - 1];
      TrimEndSpec(p);
      var i := |TrimEnd(s)|;
      assert p[..i] == s[..i];
      forall j | i <= j < |s|
        ensures IsWhitespace(s[j])
      {
        if j < |p| {
          assert s[j] == p[i..][j - i];
        }
      }
    }
  }

  /**
   * trim keeps a contiguous middle part of the string, drops only whitespace
   * around it, and leaves no whitespace at its ends; the result is empty exactly
   * when the string is blank.
   */
  lemma TrimSpec(s: string)
    ensures Trim(s) == [] || (!IsWhitespace(Trim(s)[0]) && !IsWhitespace(Trim(s)[|Trim(s)| - 1]))
    ensures exists i ::
      0 <= i <= |s| - |Trim(s)| && Trim(s) == s[i..i + |Trim(s)|] && Blank(s[..i]) && Blank(s[i + |Trim(s)|..])
    ensures Trim(s) == [] <==> Blank(s)
  {
    var t := TrimStart(s);
    TrimStartSpec(s);
    TrimEndSpec(t);
    var i := |s| - |t|;
    var m := |Trim(s)|;
    assert t == s[i..];
    assert Trim(s) == s[i..i + m];
    assert Blank(s[i + m..]) by {
      forall j | i + m <= j < |s|
        ensures IsWhitespace(s[j])
      {
        assert s[j] == t[m..][j - i - m];
      }
    }
    if Trim(s) != [] {
      assert Trim(s)[0] == t[0];
      assert !Blank(s) by {
        assert s[i] == t[0];
      }
    } else {
      assert t == [];
      assert s[..i] == s;
    }
  }

  /** Trimming twice is trimming once. */
  lemma TrimIdempotent(s: string)
    ensures Trim(Trim(s)) == Trim(s)
  {
    TrimSpec(s);
    var t := Trim(s);
    if t != [] {
      assert TrimStart(t) == t;
      assert TrimEnd(t) == t;
    }
  }

  /** `names.map(name => name.trim())`. */
  function TrimAll(names: seq<string>): (r: seq<string>)
    ensures |r| == |names|
    ensures forall i :: 0 <= i < |names| ==> r[i] == Trim(names[i])
  {
    seq(|names|, i requires 0 <= i < |names| => Trim(names[i]))
  }

  // ----- `Player ${n}` -----

  function DigitChar(d: nat): char
    requires d < 10
  {
    "0123456789"[d]
  }

  function DigitValue(c: char): nat
  {
    if '0' <= c <= '9' then (c - '0') as nat else 0
  }

  /** The decimal numeral of a natural number, as a template literal prints it. */
  function Decimal(n: nat): (r: string)
    ensures r != []
    ensures forall i :: 0 <= i < |r| ==> '0' <= r[i] <= '9'
    decreases n
  {
    if n < 10 then [DigitChar(n)] else Decimal(n / 10) + [DigitChar(n % 10)]
  }

  /** Each digit reads back as its value. */
  lemma DigitRoundTrip(d: nat)
    requires d < 10
    ensures DigitValue(DigitChar(d)) == d
  {
    var digits := "0123456789";
    assert digits[d] == '0' + d as char by {
      assert digits == ['0', '1', '2', '3', '4', '5', '6', '7', '8', '9'];
    }
  }

  /** Reads a numeral back. */
  function ParseDecimal(s: string): nat
  {
    if s == [] then 0 else 10 * ParseDecimal(s[..|s| - 1]) + DigitValue(s[|s| - 1])
  }

  /** Reading one more digit multiplies by ten and adds it. */
  lemma ParseDecimalSnoc(p: string, c: char)
    ensures ParseDecimal(p + [c]) == 10 * ParseDecimal(p) + DigitValue(c)
  {
    assert (p + [c])[..|p|] == p;
  }

  /** The numeral reads back as the number, and has no leading zero. */
  lemma {:induction false} DecimalRoundTrip(n: nat)
    ensures ParseDecimal(Decimal(n)) == n
    ensures |Decimal(n)| > 1 ==> Decimal(n)[0] != '0'
    decreases n
  {
    var d := n % 10;
    assert DigitValue(DigitChar(d)) == d by {
      DigitRoundTrip(d);
    }
    if n < 10 {
      assert d == n;
    } else {
      var q := n / 10;
      assert n == 10 * q + d;
      DecimalRoundTrip(q);
      var p := Decimal(q);
      var r := p + [DigitChar(d)];
      assert Decimal(n) == r;
      ParseDecimalSnoc(p, DigitChar(d));
      assert r[0] == p[0];
    }
  }

  /** The label addPlayer gives the player that becomes number `n`. */
  function DefaultName(n: nat): string
  {
    "Player " + Decimal(n)
  }

  // ----- the form -----

  /** What the form hands to `onCreateTournament`. */
  datatype CreateRequest = CreateRequest(name: string, players: seq<string>, mode: Format, seriesLength: SeriesLength)

  class TournamentSettings {
    var tournamentName: string
    var playerNames: seq<string>
    var mode: Format
    var seriesLength: SeriesLength

    /** Between 2 and 16 names. */
    ghost predicate Valid()
      reads this
    {
      MinPlayers <= |playerNames| <= MaxPlayers
    }

    /** The initial form: no name, players 1 to 4, single elimination, best of 3. */
    constructor()
      ensures Valid()
      ensures tournamentName == "" && playerNames == ["Player 1", "Player 2", "Player 3", "Player 4"]
      ensures mode == SingleElimination && seriesLength == 3
    {
      tournamentName := "";
      playerNames := ["Player 1", "Player 2", "Player 3", "Player 4"];
      mode := SingleElimination;
      seriesLength := 3;
    }

    /** addPlayer: appends `Player <n+1>` while there are fewer than 16 names, else does nothing. */
    method AddPlayer()
      requires Valid()
      modifies this
      ensures Valid()
      ensures old(|playerNames|) < MaxPlayers ==> playerNames == old(playerNames) + [DefaultName(old(|playerNames|) + 1)]
      ensures old(|playerNames|) >= MaxPlayers ==> playerNames == old(playerNames)
      ensures tournamentName == old(tournamentName) && mode == old(mode) && seriesLength == old(seriesLength)
    {
      if |playerNames| < MaxPlayers {
        playerNames := playerNames + ["Player " + Decimal(|playerNames| + 1)];
      }
    }

    /**
     * removePlayer: while there are more than 2 names, drops the one at `index` (an
     * index outside the list drops nothing); else does nothing.
     */
    method RemovePlayer(index: int)
      requires Valid()
      modifies this
      ensures Valid()
      ensures old(|playerNames|) > MinPlayers && 0 <= index < old(|playerNames|) ==>
        playerNames == old(playerNames)[..index] + old(playerNames)[index + 1..]
      ensures !(old(|playerNames|) > MinPlayers && 0 <= index < old(|playerNames|)) ==> playerNames == old(playerNames)
      ensures tournamentName == old(tournamentName) && mode == old(mode) && seriesLength == old(seriesLength)
    {
      if |playerNames| > MinPlayers && 0 <= index < |playerNames| {
        playerNames := playerNames[..index] + playerNames[index + 1..];
      }
    }

    /** updatePlayerName: writes the name at `index`; the length and the other names stay. */
    method UpdatePlayerName(index: int, name: string)
      requires Valid()
      requires 0 <= index < |playerNames|
      modifies this
      ensures Valid()
      ensures |playerNames| == old(|playerNames|) && playerNames[index] == name
      ensures forall i :: 0 <= i < |playerNames| && i != index ==> playerNames[i] == old(playerNames)[i]
      ensures tournamentName == old(tournamentName) && mode == old(mode) && seriesLength == old(seriesLength)
    {
      var updated := playerNames;
      updated := updated[index := name];
      playerNames := updated;
    }

    /** The name field's onChange. */
    method SetTournamentName(name: string)
      modifies this
      ensures tournamentName == name
      ensures playerNames == old(playerNames) && mode == old(mode) && seriesLength == old(seriesLength)
    {
      tournamentName := name;
    }

    /** The format select's onChange. */
    method SetMode(format: Format)
      modifies this
      ensures mode == format
      ensures playerNames == old(playerNames) && tournamentName == old(tournamentName) && seriesLength == old(seriesLength)
    {
      mode := format;
    }

    /** The series-length select's onChange. */
    method SetSeriesLength(length: SeriesLength)
      modifies this
      ensures seriesLength == length
      ensures playerNames == old(playerNames) && tournamentName == old(tournamentName) && mode == old(mode)
    {
      seriesLength := length;
    }

    /**
     * handleCreate: calls back exactly when the tournament name and every player
     * name are non-blank, with the trimmed name and the trimmed player names in
     * their order, the format and the series length.
     */
    function HandleCreate(): (r: Option<CreateRequest>)
      reads this
      ensures r.Some? <==> !Blank(tournamentName) && forall i :: 0 <= i < |playerNames| ==> !Blank(playerNames[i])
      ensures r.Some? ==> r.value.name == Trim(tournamentName) && r.value.mode == mode && r.value.seriesLength == seriesLength
      ensures r.Some? ==> |r.value.players| == |playerNames|
      ensures r.Some? ==> forall i :: 0 <= i < |playerNames| ==> r.value.players[i] == Trim(playerNames[i]) && r.value.players[i] != []
    {
      TrimSpec(tournamentName);
      TrimAllSpec(playerNames);
      if Trim(tournamentName) != [] && forall i :: 0 <= i < |playerNames| ==> Trim(playerNames[i]) != [] then
        Some(CreateRequest(Trim(tournamentName), TrimAll(playerNames), mode, seriesLength))
      else
        None
    }
  }

  lemma TrimAllSpec(names: seq<string>)
    ensures forall i :: 0 <= i < |names| ==> (Trim(names[i]) == [] <==> Blank(names[i]))
  {
    forall i | 0 <= i < |names|
      ensures Trim(names[i]) == [] <==> Blank(names[i])
    {
      TrimSpec(names[i]);
    }
  }
}
