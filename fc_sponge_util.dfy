/**
 * FCSpongeUtil.java: turning the command's single `allArgs` string into a
 * fixed-length argument list, and the permission check that tells the
 * sender when it fails.
 */
module FCSpongeUtil {
  import opened Optional

  const Space: char := ' '

  /**
   * The pieces of `s` between its spaces, empty pieces included: one more
   * piece than `s` has spaces.
   */
  function Pieces(s: string): (r: seq<string>)
    ensures |r| >= 1
    ensures forall i :: 0 <= i < |r| ==> Space !in r[i]
  {
    if s == [] then [[]]
    else
      var rest := Pieces(s[1..]);
      if s[0] == Space then [[]] + rest
      else [[s[0]] + rest[0]] + rest[1..]
  }

  /** The pieces joined back with one space between neighbours. */
  function JoinWithSpaces(ts: seq<string>): string
    requires |ts| >= 1
  {
    if |ts| == 1 then ts[0] else ts[0] + [Space] + JoinWithSpaces(ts[1..])
  }

  /** Java's `split` with limit 0 removes every trailing empty piece. */
  function DropTrailingEmpty(ts: seq<string>): (r: seq<string>)
    ensures |r| <= |ts| && r == ts[..|r|]
    ensures |r| > 0 ==> r[|r| - 1] != []
    ensures forall i :: |r| <= i < |ts| ==> ts[i] == []
  {
    if ts == [] then []
    else if ts[|ts| - 1] == [] then DropTrailingEmpty(ts[..|ts| - 1])
    else ts
  }

  /**
   * `s.split(" ")`: a string without any space splits into itself (so ""
   * gives [""]); otherwise the pieces between spaces, with trailing empty
   * pieces removed (so "a b " gives ["a", "b"] and "  " gives []).
   */
  function Split(s: string): (r: seq<string>)
    ensures forall i :: 0 <= i < |r| ==> Space !in r[i]
  {
    if Space !in s then [s] else DropTrailingEmpty(Pieces(s))
  }

  lemma {:induction false} JoinPieces(s: string)
    ensures JoinWithSpaces(Pieces(s)) == s
  {
    if s != [] {
      JoinPieces(s[1..]);
      var rest := Pieces(s[1..]);
      if s[0] == Space {
        assert Pieces(s)[1..] == rest;
      } else if |rest| == 1 {
        assert Pieces(s) == [[s[0]] + rest[0]];
      } else {
        assert Pieces(s)[1..] == rest[1..];
        assert s == [s[0]] + s[1..];
      }
    }
  }

  lemma {:induction false} LastPieceIsSuffix(s: string)
    ensures var p := Pieces(s); p[|p| - 1] == [] <==> (s == [] || s[|s| - 1] == Space)
  {
    if s != [] {
      LastPieceIsSuffix(s[1..]);
    }
  }

  /**
   * Splitting loses nothing but trailing spaces: a string that does not end
   * in a space is its tokens joined with single spaces.
   */
  lemma SplitJoinRoundTrip(s: string)
    requires s == [] || s[|s| - 1] != Space
    ensures |Split(s)| >= 1 && JoinWithSpaces(Split(s)) == s
  {
    if Space in s {
      LastPieceIsSuffix(s);
      JoinPieces(s);
      assert s != [];
      assert DropTrailingEmpty(Pieces(s)) == Pieces(s);
    }
  }

  /**
   * `parseSpongeArgsToList(args, numOfArgs)`: element i is the i-th token of
   * `allArgs` (an absent argument reads as "") while there is one, and ""
   * after that; a negative `numOfArgs` gives an empty list.
   */
  method ParseSpongeArgsToList(allArgsArg: Option<string>, numOfArgs: int) returns (argumentos: seq<string>)
    ensures |argumentos| == if numOfArgs < 0 then 0 else numOfArgs
    ensures var tokens := Split(allArgsArg.GetOr(""));
      forall i :: 0 <= i < |argumentos| ==> argumentos[i] == if i < |tokens| then tokens[i] else ""
  {
    var allArgs := "";
    if allArgsArg.Some? {
      allArgs := allArgsArg.value;
    }
    var splitedArgs := Split(allArgs);
    argumentos := [];
    var i := 0;
    while i < numOfArgs
      invariant 0 <= i <= (if numOfArgs < 0 then 0 else numOfArgs)
      invariant |argumentos| == i
      invariant forall k :: 0 <= k < i ==> argumentos[k] == if k < |splitedArgs| then splitedArgs[k] else ""
    {
      if i < |splitedArgs| {
        argumentos := argumentos + [splitedArgs[i]];
      } else {
        argumentos := argumentos + [""];
      }
      i := i + 1;
    }
  }

  /** With no `allArgs` at all every element is the empty string. */
  lemma MissingArgsAllEmpty(numOfArgs: nat, i: nat)
    requires i < numOfArgs
    ensures var tokens := Split(None.GetOr(""));
      (if i < |tokens| then tokens[i] else "") == ""
  {
    assert Split("") == [""];
  }

  /** The part of the list that is not padding is a prefix of the tokens, in order. */
  lemma TokensKeepOrder(args: seq<string>, tokens: seq<string>, numOfArgs: nat)
    requires |args| == numOfArgs
    requires forall i :: 0 <= i < |args| ==> args[i] == if i < |tokens| then tokens[i] else ""
    ensures var n := if numOfArgs < |tokens| then numOfArgs else |tokens|;
      args[..n] == tokens[..n]
  {
  }

  /** The sender of a command: what it may do and what it has been told. */
  class CommandSource {
    var permissions: set<string>
    var messages: seq<string>

    constructor (permissions: set<string>)
      ensures this.permissions == permissions && messages == []
    {
      this.permissions := permissions;
      messages := [];
    }
  }

  /**
   * `hasThePermission`: whether `player` holds `permission`; when it does
   * not, it is sent one denial message naming the permission.
   */
  method HasThePermission(player: CommandSource, permission: string) returns (r: bool)
    modifies player
    ensures r <==> permission in player.permissions
    ensures player.permissions == old(player.permissions)
    ensures player.messages == if r then old(player.messages) else old(player.messages) + [DenialMessage(permission)]
  {
    if permission !in player.permissions {
      player.messages := player.messages + [DenialMessage(permission)];
      return false;
    } else {
      return true;
    }
  }

  /** The denial text, which names the missing permission. */
  function DenialMessage(permission: string): string {
    "\U{A7}cVoc\U{EA} n\U{E3}o tem permiss\U{E3}o " + permission + " para fazer isto."
  }
}
