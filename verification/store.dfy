/** The incident list as the routes change it: the three report routes push
    one record onto the end, and the delete route replaces the list with a
    filtered copy. The JSON file behind the list is not part of this model. */
module Store {
  import opened Wrappers
  import opened Seqs
  import opened Location
  import opened Incidents

  class IncidentStore {
    var incidents: seq<Incident>

    constructor()
      ensures incidents == []
    {
      incidents := [];
    }

    /** `POST /api/incidents`: a rejected report leaves the list as it was;
        an accepted one is appended and nothing before it changes. */
    method Post(description: string, latitude: Option<Coordinate>, longitude: Option<Coordinate>,
                timestamp: Option<Timestamp>, topLabel: Option<string>, id: string, now: Timestamp)
      returns (created: Option<Incident>)
      modifies this
      ensures created == ManualReport(description, latitude, longitude, timestamp, topLabel, id, now)
      ensures created.None? ==> incidents == old(incidents)
      ensures created.Some? ==> incidents == old(incidents) + [created.value]
    {
      created := ManualReport(description, latitude, longitude, timestamp, topLabel, id, now);
      if created.Some? {
        incidents := incidents + [created.value];
      }
    }

    /** `POST /api/sms-report`: an empty message adds nothing; any other
        message adds exactly one record at the end. */
    method ReceiveSms(body: string, from: string, topLabel: Option<string>, id: string, now: Timestamp)
      returns (created: Option<Incident>)
      modifies this
      ensures created == SmsReport(body, from, topLabel, id, now)
      ensures created.None? ==> incidents == old(incidents)
      ensures created.Some? ==> incidents == old(incidents) + [created.value]
    {
      created := SmsReport(body, from, topLabel, id, now);
      if created.Some? {
        incidents := incidents + [created.value];
      }
    }

    /** `POST /api/voice-report`: as the manual report, for a transcription. */
    method ReceiveVoice(transcription: string, latitude: Option<Coordinate>, longitude: Option<Coordinate>,
                        topLabel: Option<string>, id: string, now: Timestamp)
      returns (created: Option<Incident>)
      modifies this
      ensures created == VoiceReport(transcription, latitude, longitude, topLabel, id, now)
      ensures created.None? ==> incidents == old(incidents)
      ensures created.Some? ==> incidents == old(incidents) + [created.value]
    {
      created := VoiceReport(transcription, latitude, longitude, topLabel, id, now);
      if created.Some? {
        incidents := incidents + [created.value];
      }
    }

    /** `DELETE /api/incidents/:id`: every record with the id goes, the rest
        keep their order. `found` is false (the route answers 404 and writes
        nothing) exactly when no record had the id, and then the list is
        unchanged. */
    method Delete(id: string) returns (found: bool)
      modifies this
      ensures incidents == RemoveById(old(incidents), id)
      ensures found <==> exists k :: 0 <= k < |old(incidents)| && old(incidents)[k].id == id
      ensures !found ==> incidents == old(incidents)
      ensures forall k :: 0 <= k < |incidents| ==> incidents[k].id != id
      ensures IsSubsequence(incidents, old(incidents))
    {
      var initialLength := |incidents|;
      var remaining := RemoveById(incidents, id);
      found := |remaining| != initialLength;
      if found {
        incidents := remaining;
      }
    }
  }
}
