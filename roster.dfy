/** The team roster: one `Streamer` per line of the streamers file. */
module Roster {

  /** A team member: display name, Twitch user, Twitter handle (possibly a
      "no handle" sentinel), and whether the current live session has already
      been announced. A value type, as Go's struct is: copying one and
      changing the copy leaves the roster alone. */
  datatype Streamer = Streamer(name: string, user: string, twitter: string, tweeted: bool)

  /** One record of the streamers file after CSV parsing: its fields in order. */
  type Row = seq<string>

  /** Builds the roster from the parsed records, field by field. Every entry
      starts with `tweeted` set, so streamers who are already live when the
      program starts are not announced. A record with fewer than three fields
      makes the original index out of range and panic; here that is
      `ok == false`. */
  method ReadStreamers(rows: seq<Row>) returns (streams: array<Streamer>, ok: bool)
    ensures fresh(streams)
    ensures ok <==> forall j | 0 <= j < |rows| :: |rows[j]| >= 3
    ensures ok ==> streams.Length == |rows|
    ensures ok ==> forall j | 0 <= j < |rows| ::
      streams[j] == Streamer(rows[j][0], rows[j][1], rows[j][2], true)
    ensures ok ==> forall j | 0 <= j < streams.Length :: streams[j].tweeted
  {
    streams := new Streamer[|rows|](_ => Streamer("", "", "", false));
    ok := true;
    for i := 0 to |rows|
      invariant forall j | 0 <= j < i :: |rows[j]| >= 3
      invariant forall j | 0 <= j < i ::
        streams[j] == Streamer(rows[j][0], rows[j][1], rows[j][2], true)
    {
      if |rows[i]| < 3 {
        ok := false;
        return;
      }
      streams[i] := streams[i].(name := rows[i][0]);
      streams[i] := streams[i].(user := rows[i][1]);
      streams[i] := streams[i].(twitter := rows[i][2]);
      streams[i] := streams[i].(tweeted := true);
    }
  }
}
